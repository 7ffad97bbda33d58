/** Shared planner memory: optimistic concurrency over one document, under a lock between processes.

    A revision is the digest of the content, so a caller's expected revision is the content it last read. */
module Memory {
  import opened Contracts

  // ---------------------------------------------------------------- one caller at a time

  datatype WriteResult = Saved(content: string) | Conflict

  class AnalysisMemory {
    var file: Option<string>
    const seed: string

    constructor (seed: string, file: Option<string>)
      ensures this.seed == seed && this.file == file
    {
      this.seed := seed;
      this.file := file;
    }

    /** The document as a reader sees it: the seed stands for a file that does not exist yet. */
    function Content(): string
      reads this
    {
      if file.Some? then file.value else seed
    }

    method Snapshot() returns (content: string)
      modifies this
      ensures content == old(Content()) && file == Some(content)
    {
      if file.None? {
        file := Some(seed);
      }
      return file.value;
    }

    /** Replaces the document exactly if it still is what the caller read; a conflict leaves it as it was. */
    method Write(content: string, expected: string) returns (r: WriteResult)
      modifies this
      ensures r == (if old(Content()) == expected then Saved(content) else Conflict)
      ensures file == Some(if old(Content()) == expected then content else old(Content()))
    {
      if file.None? {
        file := Some(seed);
      }
      if file.value != expected {
        return Conflict;
      }
      file := Some(content);
      return Saved(content);
    }
  }

  // ---------------------------------------------------------------- many processes

  /** A process between two atomic file or lock operations. */
  datatype Pc =
    | Looking                                        // snapshot: file not checked yet
    | Queued                                         // snapshot: file was absent, waiting for the lock
    | Seeding                                        // snapshot: lock held, file not checked again yet
    | Seeded                                         // snapshot: lock held, file present
    | Reading                                        // snapshot: lock free, file not read yet
    | Read(content: string)
    | Waiting(content: string, expected: string)     // write: waiting for the lock
    | Opening(content: string, expected: string)     // write: lock held, file not checked yet
    | Comparing(content: string, expected: string)   // write: lock held, file present
    | Writing(content: string, expected: string)     // write: lock held, revision matched
    | Written(content: string, expected: string)     // write: lock held, document replaced
    | Refusing(content: string, expected: string)    // write: lock held, revision did not match
    | Confirmed(content: string, expected: string)
    | Conflicted(content: string, expected: string)
    | Dead(was: Pc)

  /** One replacement of the document. */
  datatype Replacement = Replacement(writer: nat, before: string, after: string)

  datatype World = World(
    seed: string, file: Option<string>, lock: Option<nat>, procs: seq<Pc>, log: seq<Replacement>, seedings: nat)

  /** Where a process stands, or stood when it died. */
  function Last(pc: Pc): Pc {
    if pc.Dead? then Last(pc.was) else pc
  }

  /** What a process asked to write, over which expected content. */
  function RequestOf(pc: Pc): Option<(string, string)> {
    match pc
    case Dead(was) => RequestOf(was)
    case Looking => None
    case Queued => None
    case Seeding => None
    case Seeded => None
    case Reading => None
    case Read(_) => None
    case _ => Some((pc.content, pc.expected))
  }

  datatype Event = StartSnapshot | StartWrite(content: string, expected: string) | Advance(p: nat) | Die(p: nat)

  predicate Enabled(w: World, e: Event) {
    match e
    case StartSnapshot => true
    case StartWrite(_, _) => true
    case Die(p) => p < |w.procs| && !w.procs[p].Dead?
    case Advance(p) =>
      && p < |w.procs|
      && match w.procs[p]
         case Queued => w.lock.None?
         case Waiting(_, _) => w.lock.None?
         case Reading => w.file.Some?
         case Read(_) => false
         case Confirmed(_, _) => false
         case Conflicted(_, _) => false
         case Dead(_) => false
         case _ => true
  }

  function SetPc(w: World, p: nat, pc: Pc): World
    requires p < |w.procs|
  {
    w.(procs := w.procs[p := pc])
  }

  function Seed(w: World): World {
    if w.file.None? then w.(file := Some(w.seed), seedings := w.seedings + 1) else w
  }

  function Advanced(w: World, p: nat): World
    requires Enabled(w, Advance(p))
  {
    match w.procs[p]
    case Looking => SetPc(w, p, if w.file.None? then Queued else Reading)
    case Queued => SetPc(w, p, Seeding).(lock := Some(p))
    case Seeding => SetPc(Seed(w), p, Seeded)
    case Seeded => SetPc(w, p, Reading).(lock := None)
    case Reading => SetPc(w, p, Read(w.file.value))
    case Waiting(c, x) => SetPc(w, p, Opening(c, x)).(lock := Some(p))
    case Opening(c, x) => SetPc(Seed(w), p, Comparing(c, x))
    case Comparing(c, x) => SetPc(w, p, if w.file == Some(x) then Writing(c, x) else Refusing(c, x))
    case Writing(c, x) =>
      var before := if w.file.Some? then w.file.value else "";
      SetPc(w, p, Written(c, x)).(file := Some(c), log := w.log + [Replacement(p, before, c)])
    case Written(c, x) => SetPc(w, p, Confirmed(c, x)).(lock := None)
    case Refusing(c, x) => SetPc(w, p, Conflicted(c, x)).(lock := None)
    case _ => w
  }

  /** A process may die anywhere; the system then releases its lock. */
  function Step(w: World, e: Event): World
    requires Enabled(w, e)
  {
    match e
    case StartSnapshot => w.(procs := w.procs + [Looking])
    case StartWrite(c, x) => w.(procs := w.procs + [Waiting(c, x)])
    case Advance(p) => Advanced(w, p)
    case Die(p) => SetPc(w, p, Dead(w.procs[p])).(lock := if w.lock == Some(p) then None else w.lock)
  }

  predicate Initial(w: World) {
    w.lock.None? && w.procs == [] && w.log == [] && w.seedings == 0
  }

  ghost predicate RunOk(w: World, events: seq<Event>)
    decreases |events|
  {
    events != [] ==> Enabled(w, events[0]) && RunOk(Step(w, events[0]), events[1..])
  }

  ghost function RunWorld(w: World, events: seq<Event>): World
    requires RunOk(w, events)
    decreases |events|
  {
    if events == [] then w else RunWorld(Step(w, events[0]), events[1..])
  }

  // ---------------------------------------------------------------- the invariant

  predicate Critical(pc: Pc) {
    pc.Seeding? || pc.Seeded? || pc.Opening? || pc.Comparing? || pc.Writing? || pc.Written? || pc.Refusing?
  }

  /** What the document was before any replacement. */
  function Origin(start: World): string {
    if start.file.Some? then start.file.value else start.seed
  }

  /** The document after the first `n` replacements. */
  function Version(origin: string, log: seq<Replacement>, n: nat): string
    requires n <= |log|
  {
    if n == 0 then origin else log[n - 1].after
  }

  /** Each replacement took over exactly where the previous one left the document. */
  ghost predicate Chain(origin: string, log: seq<Replacement>) {
    forall n :: 0 <= n < |log| ==> log[n].before == Version(origin, log, n)
  }

  predicate PresentFile(pc: Pc, file: Option<string>) {
    && (pc.Seeded? || pc.Reading? || pc.Comparing? || pc.Written? || pc.Refusing? ==> file.Some?)
    && (pc.Writing? ==> file == Some(pc.expected))
  }

  predicate Replaced(pc: Pc) {
    Last(pc).Written? || Last(pc).Confirmed?
  }

  /** A process that got past its replacement, dead or alive, is logged with exactly its request; any other is
      not logged at all. */
  ghost predicate Logged(log: seq<Replacement>, p: nat, pc: Pc) {
    if Replaced(pc) then
      var r := Replacement(p, Last(pc).expected, Last(pc).content);
      r in log && forall x :: x in log && x.writer == p ==> x == r
    else !Replaces(log, p)
  }

  ghost predicate Replaces(log: seq<Replacement>, p: nat) {
    exists r :: r in log && r.writer == p
  }

  ghost predicate WritersDiffer(log: seq<Replacement>) {
    forall i, j :: 0 <= i < j < |log| ==> log[i].writer != log[j].writer
  }

  /** The lock is held by exactly the process in its critical section. */
  ghost predicate LockOk(w: World) {
    && (forall p :: 0 <= p < |w.procs| ==> (Critical(w.procs[p]) <==> w.lock == Some(p)))
    && (w.lock.Some? ==> w.lock.value < |w.procs|)
  }

  /** The document is the last version of its chain. */
  ghost predicate DocumentOk(start: World, w: World) {
    && w.seed == start.seed
    && (w.file.None? ==> w.log == [])
    && (w.file.Some? ==> w.file.value == Version(Origin(start), w.log, |w.log|))
    && Chain(Origin(start), w.log)
    && w.seedings == (if start.file.None? && w.file.Some? then 1 else 0)
    && (start.file.Some? ==> w.file.Some?)
  }

  /** Every process stands consistently with the document and the log. */
  ghost predicate ProcsOk(start: World, w: World) {
    && (forall p :: 0 <= p < |w.procs| ==> PresentFile(w.procs[p], w.file) && Logged(w.log, p, w.procs[p]))
    && (forall r :: r in w.log ==> r.writer < |w.procs|)
    && WritersDiffer(w.log)
    && (forall p :: 0 <= p < |w.procs| ==> SawVersions(Origin(start), w.log, w.procs[p]))
  }

  ghost predicate MemoryInv(start: World, w: World) {
    LockOk(w) && DocumentOk(start, w) && ProcsOk(start, w)
  }

  /** Some version of the document had this content. */
  ghost predicate WasCurrent(origin: string, log: seq<Replacement>, content: string) {
    exists n :: 0 <= n <= |log| && Version(origin, log, n) == content
  }

  /** Some version of the document had other content. */
  ghost predicate WasOther(origin: string, log: seq<Replacement>, content: string) {
    exists n :: 0 <= n <= |log| && Version(origin, log, n) != content
  }

  predicate Refused(pc: Pc) {
    Last(pc).Refusing? || Last(pc).Conflicted?
  }

  /** A reader has seen a version of the document, and a refused writer one that it did not expect. */
  ghost predicate SawVersions(origin: string, log: seq<Replacement>, pc: Pc) {
    && (pc.Read? ==> WasCurrent(origin, log, pc.content))
    && (Refused(pc) ==> WasOther(origin, log, Last(pc).expected))
  }

  lemma SawPersists(origin: string, log: seq<Replacement>, more: seq<Replacement>, pc: Pc)
    requires SawVersions(origin, log, pc)
    ensures SawVersions(origin, log + more, pc)
  {
    forall n | 0 <= n <= |log| ensures Version(origin, log + more, n) == Version(origin, log, n) {
    }
    if pc.Read? {
      var n :| 0 <= n <= |log| && Version(origin, log, n) == pc.content;
      assert Version(origin, log + more, n) == pc.content;
    }
    if Refused(pc) {
      var n :| 0 <= n <= |log| && Version(origin, log, n) != Last(pc).expected;
      assert Version(origin, log + more, n) != Last(pc).expected;
    }
  }

  /** Moving one process without touching the document. */
  lemma MoveKeeps(start: World, w: World, p: nat, pc: Pc, lock: Option<nat>)
    requires MemoryInv(start, w) && p < |w.procs|
    requires Critical(pc) <==> lock == Some(p)
    requires lock == w.lock || (lock == Some(p) && w.lock.None?) || (lock.None? && w.lock == Some(p))
    requires PresentFile(pc, w.file) && Logged(w.log, p, pc)
    requires SawVersions(Origin(start), w.log, pc)
    ensures MemoryInv(start, SetPc(w, p, pc).(lock := lock))
  {
  }

  lemma SeedKeeps(start: World, w: World)
    requires MemoryInv(start, w)
    ensures MemoryInv(start, Seed(w)) && Seed(w).file.Some?
  {
  }

  lemma ChainGrows(origin: string, log: seq<Replacement>, r: Replacement)
    requires Chain(origin, log) && r.before == Version(origin, log, |log|)
    ensures Chain(origin, log + [r])
  {
    var n := log + [r];
    forall i | 0 <= i < |n| ensures n[i].before == Version(origin, n, i) {
      if i < |log| {
        assert n[i] == log[i] && Version(origin, n, i) == Version(origin, log, i);
      }
    }
  }

  lemma OthersWait(start: World, w: World, p: nat, r: Replacement, file: Option<string>)
    requires MemoryInv(start, w) && p < |w.procs| && w.procs[p].Writing? && r.writer == p && file.Some?
    ensures forall q :: 0 <= q < |w.procs| && q != p ==>
      PresentFile(w.procs[q], file) && Logged(w.log + [r], q, w.procs[q])
  {
    forall q | 0 <= q < |w.procs| && q != p
      ensures PresentFile(w.procs[q], file) && Logged(w.log + [r], q, w.procs[q]) {
      assert !Critical(w.procs[q]) && PresentFile(w.procs[q], w.file) && Logged(w.log, q, w.procs[q]);
      assert Replaces(w.log + [r], q) ==> Replaces(w.log, q);
    }
  }

  lemma WriterIsNew(log: seq<Replacement>, r: Replacement)
    requires WritersDiffer(log) && !Replaces(log, r.writer)
    ensures WritersDiffer(log + [r])
    ensures forall x :: x in log + [r] && x.writer == r.writer ==> x == r
  {
    forall i | 0 <= i < |log| ensures log[i].writer != r.writer {
      assert log[i] in log;
    }
  }

  lemma SightsStay(start: World, w: World, r: Replacement)
    requires MemoryInv(start, w)
    ensures forall q :: 0 <= q < |w.procs| ==> SawVersions(Origin(start), w.log + [r], w.procs[q])
  {
    forall q | 0 <= q < |w.procs| ensures SawVersions(Origin(start), w.log + [r], w.procs[q]) {
      SawPersists(Origin(start), w.log, [r], w.procs[q]);
    }
  }

  lemma ReplacedProcs(start: World, w: World, p: nat, r: Replacement, file: Option<string>)
    requires MemoryInv(start, w) && p < |w.procs| && w.procs[p].Writing? && file.Some?
    requires r == Replacement(p, w.procs[p].expected, w.procs[p].content)
    ensures ProcsOk(start, SetPc(w, p, Written(r.after, r.before)).(file := file, log := w.log + [r]))
  {
    OthersWait(start, w, p, r, file);
    SightsStay(start, w, r);
    assert Logged(w.log, p, w.procs[p]);
    WriterIsNew(w.log, r);
    assert r in w.log + [r];
  }

  /** The replacement happens while the lock keeps the document at the expected content. */
  lemma WritingKeeps(start: World, w: World, p: nat)
    requires MemoryInv(start, w) && p < |w.procs| && w.procs[p].Writing?
    ensures MemoryInv(start, Advanced(w, p))
  {
    var pc := w.procs[p];
    assert PresentFile(pc, w.file);
    var r := Replacement(p, pc.expected, pc.content);
    ChainGrows(Origin(start), w.log, r);
    ReplacedProcs(start, w, p, r, Some(pc.content));
  }

  lemma SnapshotAdvances(start: World, w: World, p: nat)
    requires MemoryInv(start, w) && Enabled(w, Advance(p)) && RequestOf(w.procs[p]).None?
    ensures MemoryInv(start, Advanced(w, p))
  {
    assert PresentFile(w.procs[p], w.file) && Logged(w.log, p, w.procs[p]);
    match w.procs[p]
    case Looking => MoveKeeps(start, w, p, if w.file.None? then Queued else Reading, w.lock);
    case Queued => MoveKeeps(start, w, p, Seeding, Some(p));
    case Seeding =>
      SeedKeeps(start, w);
      MoveKeeps(start, Seed(w), p, Seeded, w.lock);
    case Seeded => MoveKeeps(start, w, p, Reading, None);
    case Reading =>
      assert Version(Origin(start), w.log, |w.log|) == w.file.value;
      MoveKeeps(start, w, p, Read(w.file.value), w.lock);
    case _ =>
  }

  lemma DocumentDiffers(start: World, w: World, expected: string)
    requires DocumentOk(start, w) && w.file.Some? && w.file != Some(expected)
    ensures WasOther(Origin(start), w.log, expected)
  {
    assert Version(Origin(start), w.log, |w.log|) != expected;
  }

  lemma MatchKeeps(start: World, w: World, p: nat)
    requires MemoryInv(start, w) && p < |w.procs| && w.procs[p].Comparing? && w.file == Some(w.procs[p].expected)
    ensures MemoryInv(start, Advanced(w, p))
  {
    var pc := Writing(w.procs[p].content, w.procs[p].expected);
    assert Critical(w.procs[p]) && Logged(w.log, p, w.procs[p]) && Logged(w.log, p, pc);
    MoveKeeps(start, w, p, pc, w.lock);
    assert Advanced(w, p) == SetPc(w, p, pc).(lock := w.lock);
  }

  lemma MismatchKeeps(start: World, w: World, p: nat)
    requires MemoryInv(start, w) && p < |w.procs| && w.procs[p].Comparing? && w.file != Some(w.procs[p].expected)
    ensures MemoryInv(start, Advanced(w, p))
  {
    assert PresentFile(w.procs[p], w.file);
    DocumentDiffers(start, w, w.procs[p].expected);
    var pc := Refusing(w.procs[p].content, w.procs[p].expected);
    assert Critical(w.procs[p]) && Logged(w.log, p, w.procs[p]) && Logged(w.log, p, pc);
    MoveKeeps(start, w, p, pc, w.lock);
    assert Advanced(w, p) == SetPc(w, p, pc).(lock := w.lock);
  }

  lemma WriteAdvances(start: World, w: World, p: nat)
    requires MemoryInv(start, w) && Enabled(w, Advance(p)) && RequestOf(w.procs[p]).Some?
    ensures MemoryInv(start, Advanced(w, p))
  {
    assert PresentFile(w.procs[p], w.file) && Logged(w.log, p, w.procs[p]);
    assert SawVersions(Origin(start), w.log, w.procs[p]);
    match w.procs[p]
    case Waiting(c, x) => MoveKeeps(start, w, p, Opening(c, x), Some(p));
    case Opening(c, x) =>
      SeedKeeps(start, w);
      MoveKeeps(start, Seed(w), p, Comparing(c, x), w.lock);
    case Comparing(_, x) =>
      if w.file == Some(x) {
        MatchKeeps(start, w, p);
      } else {
        MismatchKeeps(start, w, p);
      }
    case Writing(_, _) => WritingKeeps(start, w, p);
    case Written(c, x) => MoveKeeps(start, w, p, Confirmed(c, x), None);
    case Refusing(c, x) => MoveKeeps(start, w, p, Conflicted(c, x), None);
    case _ =>
  }

  lemma AdvanceKeeps(start: World, w: World, p: nat)
    requires MemoryInv(start, w) && Enabled(w, Advance(p))
    ensures MemoryInv(start, Advanced(w, p))
  {
    if RequestOf(w.procs[p]).None? {
      SnapshotAdvances(start, w, p);
    } else {
      WriteAdvances(start, w, p);
    }
  }

  lemma StepKeeps(start: World, w: World, e: Event)
    requires MemoryInv(start, w) && Enabled(w, e)
    ensures MemoryInv(start, Step(w, e))
  {
    match e
    case Advance(p) => AdvanceKeeps(start, w, p);
    case Die(p) =>
      assert Logged(w.log, p, w.procs[p]) && SawVersions(Origin(start), w.log, w.procs[p]);
      MoveKeeps(start, w, p, Dead(w.procs[p]), if w.lock == Some(p) then None else w.lock);
    case _ => JoinKeeps(start, w, Step(w, e).procs[|w.procs|]);
  }

  lemma JoinKeeps(start: World, w: World, pc: Pc)
    requires MemoryInv(start, w) && (pc.Looking? || pc.Waiting?)
    ensures MemoryInv(start, w.(procs := w.procs + [pc]))
  {
    assert !Replaces(w.log, |w.procs|);
  }

  lemma {:induction false} RunKeeps(start: World, w: World, events: seq<Event>)
    requires MemoryInv(start, w) && RunOk(w, events)
    ensures MemoryInv(start, RunWorld(w, events))
    decreases |events|
  {
    if events != [] {
      StepKeeps(start, w, events[0]);
      RunKeeps(start, Step(w, events[0]), events[1..]);
    }
  }

  // ---------------------------------------------------------------- what callers may rely on

  /** A process never changes what it asks for. */
  lemma RequestsStand(w: World, e: Event, p: nat)
    requires Enabled(w, e) && p < |w.procs|
    ensures p < |Step(w, e).procs| && RequestOf(Step(w, e).procs[p]) == RequestOf(w.procs[p])
  {
  }

  /** Over any stretch of any interleaving, a process still asks for what it asked for at the start of it. */
  lemma {:induction false} RequestsStandThroughout(w: World, events: seq<Event>, p: nat)
    requires RunOk(w, events) && p < |w.procs|
    ensures p < |RunWorld(w, events).procs| && RequestOf(RunWorld(w, events).procs[p]) == RequestOf(w.procs[p])
    decreases |events|
  {
    if events != [] {
      RequestsStand(w, events[0], p);
      RequestsStandThroughout(Step(w, events[0]), events[1..], p);
    }
  }

  /** A logged replacement carries out its writer's request: it wrote what the writer asked for, over exactly
      the content the writer expected, even if the writer died before hearing of it. */
  ghost predicate CarriesOut(w: World, r: Replacement) {
    r.writer < |w.procs| && RequestOf(w.procs[r.writer]) == Some((r.after, r.before))
  }

  lemma RequestOfLast(pc: Pc)
    ensures RequestOf(pc) == RequestOf(Last(pc)) && !Last(pc).Dead?
  {
  }

  lemma LoggedIsCarriedOut(start: World, w: World, r: Replacement)
    requires MemoryInv(start, w) && r in w.log
    ensures CarriesOut(w, r)
  {
    var pc := w.procs[r.writer];
    assert Logged(w.log, r.writer, pc) && Replaces(w.log, r.writer);
    RequestOfLast(pc);
  }

  /** What the log says of one process, dead or alive. */
  ghost predicate Outcome(origin: string, w: World, p: nat)
    requires p < |w.procs|
  {
    && (Last(w.procs[p]).Confirmed? ==> Replacement(p, Last(w.procs[p]).expected, Last(w.procs[p]).content) in w.log)
    && (Last(w.procs[p]).Conflicted? ==>
          !Replaces(w.log, p) && WasOther(origin, w.log, Last(w.procs[p]).expected))
  }

  /** For any interleaving of any number of processes, some of which die: the replacements form one chain from
      the original document to the current one; each carries out the request of a different writer; a write that
      was confirmed is among them and one that was refused is not, having met other content than it expected; a
      reader saw a version of the chain; and the seed is written at most once. */
  lemma NoLostUpdates(start: World, events: seq<Event>)
    requires Initial(start) && RunOk(start, events)
    ensures var w := RunWorld(start, events);
      && Chain(Origin(start), w.log)
      && (w.file.Some? ==> w.file.value == Version(Origin(start), w.log, |w.log|))
      && (forall r :: r in w.log ==> CarriesOut(w, r)) && WritersDiffer(w.log)
      && (forall p :: 0 <= p < |w.procs| ==> Outcome(Origin(start), w, p))
      && (forall p :: 0 <= p < |w.procs| && w.procs[p].Read? ==> WasCurrent(Origin(start), w.log, w.procs[p].content))
      && w.seedings <= 1 && (w.seedings == 1 ==> start.file.None?)
  {
    RunKeeps(start, start, events);
    var w := RunWorld(start, events);
    forall r | r in w.log ensures CarriesOut(w, r) {
      LoggedIsCarriedOut(start, w, r);
    }
    forall p | 0 <= p < |w.procs| ensures Outcome(Origin(start), w, p) {
      assert Logged(w.log, p, w.procs[p]) && SawVersions(Origin(start), w.log, w.procs[p]);
    }
    forall p | 0 <= p < |w.procs| && w.procs[p].Read? ensures WasCurrent(Origin(start), w.log, w.procs[p].content) {
      assert SawVersions(Origin(start), w.log, w.procs[p]);
    }
  }
}
