/** Exactly-once execution: a directory store shared by concurrent request handlers, and the retrying client
    that asks them to run code. */
module Worker {
  import opened Contracts

  type Id = int

  const STALE_RUNNING_SECONDS := 7200

  /** A status file. The time a running record started may be missing from it. */
  datatype Payload =
    | Running(started: Option<int>)
    | Failed(reason: string)
    | Succeeded(result: Option<string>, figuresDecode: bool)
    | Unknown
  {
    predicate Ended() { Failed? || Succeeded? }
  }

  /** A directory of the store: its status file, if written, and its modification time. */
  datatype Dir = Dir(status: Option<Payload>, mtime: int)

  type Disk = map<Id, Dir>

  // ---------------------------------------------------------------- atomic file operations

  /** `ExecutionStore.read`: absent only when the directory is. */
  function ReadDisk(disk: Disk, id: Id): Option<Payload> {
    if id !in disk then None
    else if disk[id].status.None? then Some(Payload.Running(None))
    else disk[id].status
  }

  /** `_is_stale`. */
  predicate IsStale(dir: Dir, now: int) {
    match dir.status
    case None => now - dir.mtime > STALE_RUNNING_SECONDS
    case Some(Running(started)) => started.Some? && now - started.value > STALE_RUNNING_SECONDS
    case _ => false
  }

  /** A directory whose status was never written for two hours, or a record running for more than two hours. */
  predicate Overdue(dir: Dir, now: int) {
    || (dir.status.None? && now - dir.mtime > 7200)
    || (&& dir.status.Some? && dir.status.value.Running? && dir.status.value.started.Some?
        && now - dir.status.value.started.value > 7200)
  }

  predicate HasEnded(dir: Dir) {
    dir.status.Some? && dir.status.value.Ended()
  }

  function WriteStatus(disk: Disk, id: Id, p: Payload, now: int): Disk {
    disk[id := Dir(Some(p), now)]
  }

  class ExecutionStore {
    var disk: Disk

    constructor ()
      ensures disk == map[]
    {
      disk := map[];
    }

    /** Atomic: exactly one of two concurrent callers finds the directory absent. */
    method MakeDirectory(id: Id, now: int) returns (made: bool)
      modifies this
      ensures made <==> id !in old(disk)
      ensures disk == if made then old(disk)[id := Dir(None, now)] else old(disk)
    {
      made := id !in disk;
      if made {
        disk := disk[id := Dir(None, now)];
      }
    }

    /** Undisturbed by others, a claim succeeds exactly on an absent or stale record, and then leaves it running. */
    method Claim(id: Id, now: int) returns (claimed: bool)
      modifies this
      ensures claimed <==> id !in old(disk) || Overdue(old(disk)[id], now)
      ensures id in old(disk) && HasEnded(old(disk)[id]) ==> !claimed
      ensures claimed ==> disk == old(disk)[id := Dir(Some(Payload.Running(Some(now))), now)]
      ensures !claimed ==> disk == old(disk)
    {
      var made := MakeDirectory(id, now);
      if !made {
        if !IsStale(disk[id], now) {
          return false;
        }
        disk := disk - {id};
        made := MakeDirectory(id, now);
        if !made {
          return false;
        }
      }
      disk := WriteStatus(disk, id, Payload.Running(Some(now)), now);
      return true;
    }

    method Read(id: Id) returns (record: Option<Payload>)
      ensures record == ReadDisk(disk, id)
      ensures record.None? <==> id !in disk
      ensures id in disk ==>
        record == if disk[id].status.None? then Some(Payload.Running(None)) else disk[id].status
    {
      if id !in disk {
        return None;
      }
      if disk[id].status.None? {
        return Some(Payload.Running(None));
      }
      return disk[id].status;
    }

    method Finish(id: Id, p: Payload, now: int)
      modifies this
      ensures disk == old(disk)[id := Dir(Some(p), now)]
    {
      disk := WriteStatus(disk, id, p, now);
    }

    /** Removes exactly the directories older than the cutoff, and counts them; `listing` is the order in
        which the root directory is read. */
    method Sweep(listing: seq<Id>, cutoff: int) returns (removed: nat)
      requires forall id :: id in listing <==> id in disk
      requires forall i, j :: 0 <= i < j < |listing| ==> listing[i] != listing[j]
      modifies this
      ensures forall id :: id in disk <==> id in old(disk) && old(disk)[id].mtime >= cutoff
      ensures forall id :: id in disk ==> disk[id] == old(disk)[id]
      ensures removed == |old(disk).Keys| - |disk.Keys|
    {
      removed := 0;
      forall i | 0 <= i < |listing| ensures listing[i] in disk {
        assert listing[i] in listing;
      }
      for k := 0 to |listing|
        invariant disk.Keys <= old(disk).Keys
        invariant forall id :: id in disk ==> disk[id] == old(disk)[id]
        invariant forall i :: 0 <= i < k ==> (listing[i] in disk <==> old(disk)[listing[i]].mtime >= cutoff)
        invariant forall i :: k <= i < |listing| ==> listing[i] in disk
        invariant removed == |old(disk).Keys| - |disk.Keys|
      {
        var id := listing[k];
        if disk[id].mtime >= cutoff {
          continue;
        }
        assert (disk - {id}).Keys == disk.Keys - {id};
        disk := disk - {id};
        removed := removed + 1;
      }
    }
  }

  /** `create_execution` undisturbed by other requests: an id whose record stands is answered from the record
      and nothing runs; otherwise the code runs and its outcome is what stays on disk. */
  method CreateExecution(store: ExecutionStore, id: Id, now: int, outcome: Payload, raised: bool, later: int)
    returns (ran: bool, reply: Option<Payload>)
    modifies store
    ensures ran <==> id !in old(store.disk) || Overdue(old(store.disk)[id], now)
    ensures id in old(store.disk) && HasEnded(old(store.disk)[id]) ==>
      !ran && reply == old(store.disk)[id].status && store.disk == old(store.disk)
    ensures !ran ==> store.disk == old(store.disk) && reply == ReadDisk(old(store.disk), id) && reply.Some?
    ensures ran ==> id in store.disk && store.disk[id] == Dir(Some(outcome), later)
    ensures ran ==> store.disk - {id} == old(store.disk) - {id}
    ensures ran ==> reply == if raised then None else Some(outcome)
  {
    var claimed := store.Claim(id, now);
    if !claimed {
      reply := store.Read(id);
      if reply.Some? {
        return false, reply;
      }
    }
    store.Finish(id, outcome, later);
    ran, reply := true, if raised then None else Some(outcome);
  }

  // ---------------------------------------------------------------- concurrent handlers

  /** Where a POST handler stands between two atomic operations. */
  datatype Pc =
    | Arrived
    | Judging            // the directory existed; staleness not judged yet
    | Removing           // judged stale
    | Remaking           // removed the stale directory
    | Refused            // claim returned false; record not read yet
    | Claimed            // made the directory; running record not written yet
    | Executing
    | Computed(outcome: Payload, raised: bool)
    | Stored(outcome: Payload)
    | Answered

  datatype Handler = Handler(id: Id, pc: Pc)

  datatype Reply = Reply(id: Id, payload: Option<Payload>)

  datatype Ran = Ran(handler: nat, id: Id, outcome: Payload)

  /** The store, every handler ever started, every time code ran, and every reply ever sent. */
  datatype World = World(disk: Disk, handlers: seq<Handler>, ran: seq<Ran>, replies: set<Reply>)

  const EMPTY_WORLD := World(map[], [], [], {})

  datatype Event =
    | Post(id: Id)
    | Mkdir(h: nat, now: int)
    | Judge(h: nat, now: int)
    | RemoveStale(h: nat)
    | RemakeDirectory(h: nat, now: int)
    | WriteRunning(h: nat, now: int)
    | ReadRefused(h: nat)
    | RunCode(h: nat, outcome: Payload, raised: bool)
    | FinishRun(h: nat, now: int)
    | Get(id: Id)
    | SweepOne(id: Id, cutoff: int)

  predicate At(w: World, h: nat, pc: Pc) {
    h < |w.handlers| && w.handlers[h].pc == pc
  }

  predicate Enabled(w: World, e: Event) {
    match e
    case Post(_) => true
    case Mkdir(h, _) => At(w, h, Arrived)
    case Judge(h, _) => At(w, h, Judging)
    case RemoveStale(h) => At(w, h, Removing)
    case RemakeDirectory(h, _) => At(w, h, Remaking)
    case WriteRunning(h, _) => At(w, h, Claimed)
    case ReadRefused(h) => At(w, h, Refused)
    case RunCode(h, outcome, raised) => At(w, h, Executing) && outcome.Ended() && (raised ==> outcome.Failed?)
    case FinishRun(h, _) => h < |w.handlers| && w.handlers[h].pc.Computed?
    case Get(_) => true
    case SweepOne(id, cutoff) => id in w.disk && w.disk[id].mtime < cutoff
  }

  function Goto(w: World, h: nat, pc: Pc): World
    requires h < |w.handlers|
  {
    w.(handlers := w.handlers[h := w.handlers[h].(pc := pc)])
  }

  function Step(w: World, e: Event): World
    requires Enabled(w, e)
  {
    match e
    case Post(id) => w.(handlers := w.handlers + [Handler(id, Arrived)])
    case Mkdir(h, now) =>
      var id := w.handlers[h].id;
      if id in w.disk then Goto(w, h, Judging) else Goto(w, h, Claimed).(disk := w.disk[id := Dir(None, now)])
    case Judge(h, now) =>
      var id := w.handlers[h].id;
      if id in w.disk && IsStale(w.disk[id], now) then Goto(w, h, Removing) else Goto(w, h, Refused)
    case RemoveStale(h) => Goto(w, h, Remaking).(disk := w.disk - {w.handlers[h].id})
    case RemakeDirectory(h, now) =>
      var id := w.handlers[h].id;
      if id in w.disk then Goto(w, h, Refused) else Goto(w, h, Claimed).(disk := w.disk[id := Dir(None, now)])
    case WriteRunning(h, now) =>
      var id := w.handlers[h].id;
      Goto(w, h, Executing).(disk := WriteStatus(w.disk, id, Payload.Running(Some(now)), now))
    case ReadRefused(h) =>
      var id := w.handlers[h].id;
      var existing := ReadDisk(w.disk, id);
      if existing.None? then Goto(w, h, Executing)
      else Goto(w, h, Answered).(replies := w.replies + {Reply(id, existing)})
    case RunCode(h, outcome, raised) =>
      Goto(w, h, Computed(outcome, raised)).(ran := w.ran + [Ran(h, w.handlers[h].id, outcome)])
    case FinishRun(h, now) =>
      var id, pc := w.handlers[h].id, w.handlers[h].pc;
      Goto(w, h, Stored(pc.outcome)).(
        disk := WriteStatus(w.disk, id, pc.outcome, now),
        replies := if pc.raised then w.replies else w.replies + {Reply(id, Some(pc.outcome))})
    case Get(id) => w.(replies := w.replies + {Reply(id, ReadDisk(w.disk, id))})
    case SweepOne(id, _) => w.(disk := w.disk - {id})
  }

  /** The id whose directory an event works on. */
  function EventId(w: World, e: Event): Id
    requires Enabled(w, e)
  {
    match e
    case Post(id) => id
    case Get(id) => id
    case SweepOne(id, _) => id
    case _ => w.handlers[e.h].id
  }

  /** The event removes the directory of `id` only if that kind of removal is allowed: `reclaim` for a
      directory judged stale, `sweep` for one past its retention. Other ids are not restricted. */
  predicate Permits(w: World, e: Event, id: Id, reclaim: bool, sweep: bool)
    requires Enabled(w, e)
  {
    EventId(w, e) == id ==> (e.RemoveStale? ==> reclaim) && (e.SweepOne? ==> sweep)
  }

  ghost predicate RunOk(w: World, events: seq<Event>)
    decreases |events|
  {
    events != [] ==> Enabled(w, events[0]) && RunOk(Step(w, events[0]), events[1..])
  }

  ghost predicate RunPermits(w: World, events: seq<Event>, id: Id, reclaim: bool, sweep: bool)
    requires RunOk(w, events)
    decreases |events|
  {
    events != [] ==>
      Permits(w, events[0], id, reclaim, sweep) && RunPermits(Step(w, events[0]), events[1..], id, reclaim, sweep)
  }

  /** Nothing removes the directory of `id`, whatever happens to the others. */
  ghost predicate RunRetains(w: World, events: seq<Event>, id: Id)
    requires RunOk(w, events)
  {
    RunPermits(w, events, id, false, false)
  }

  ghost function RunWorld(w: World, events: seq<Event>): World
    requires RunOk(w, events)
    decreases |events|
  {
    if events == [] then w else RunWorld(Step(w, events[0]), events[1..])
  }

  // ---------------------------------------------------------------- one handler on its own

  /** A handler that finds the directory judges it stale exactly if it is overdue, and changes nothing else by
      judging; a record that has ended is never judged stale. */
  lemma JudgeRemovesIff(w: World, h: nat, now: int)
    requires At(w, h, Judging)
    ensures var id, n := w.handlers[h].id, Step(w, Judge(h, now));
      && (At(n, h, Removing) <==> id in w.disk && Overdue(w.disk[id], now))
      && (!At(n, h, Removing) ==> At(n, h, Refused))
      && (id in w.disk && HasEnded(w.disk[id]) ==> At(n, h, Refused))
      && n == w.(handlers := w.handlers[h := Handler(id, n.handlers[h].pc)])
  {
  }

  function RunEvents(h: nat, now: int, outcome: Payload, raised: bool, later: int): seq<Event> {
    [WriteRunning(h, now), RunCode(h, outcome, raised), FinishRun(h, later)]
  }

  lemma OneEvent(w: World, e: Event, rest: seq<Event>)
    requires Enabled(w, e) && RunOk(Step(w, e), rest)
    ensures RunOk(w, [e] + rest) && RunWorld(w, [e] + rest) == RunWorld(Step(w, e), rest)
  {
    assert ([e] + rest)[0] == e && ([e] + rest)[1..] == rest;
  }

  lemma SoloFinishes(w: World, h: nat, id: Id, now: int, outcome: Payload, raised: bool, later: int)
    requires h < |w.handlers| && w.handlers[h] == Handler(id, Claimed)
    requires outcome.Ended() && (raised ==> outcome.Failed?)
    ensures RunOk(w, RunEvents(h, now, outcome, raised, later))
    ensures var n := RunWorld(w, RunEvents(h, now, outcome, raised, later));
      && n.disk == w.disk[id := Dir(Some(outcome), later)] && n.ran == w.ran + [Ran(h, id, outcome)]
      && n.replies == if raised then w.replies else w.replies + {Reply(id, Some(outcome))}
  {
    var w1 := Step(w, WriteRunning(h, now));
    var w2 := Step(w1, RunCode(h, outcome, raised));
    var w3 := Step(w2, FinishRun(h, later));
    OneEvent(w2, FinishRun(h, later), []);
    OneEvent(w1, RunCode(h, outcome, raised), [FinishRun(h, later)]);
    OneEvent(w, WriteRunning(h, now), [RunCode(h, outcome, raised), FinishRun(h, later)]);
    assert w3.disk == w.disk[id := Dir(Some(outcome), later)];
  }

  /** A claimed record says since when it runs, and a finished one what came out; both are dated by their writing. */
  lemma RecordsAreDated(w: World, e: Event)
    requires Enabled(w, e)
    ensures e.WriteRunning? ==>
      Step(w, e).disk == w.disk[w.handlers[e.h].id := Dir(Some(Payload.Running(Some(e.now))), e.now)]
    ensures e.FinishRun? ==>
      Step(w, e).disk == w.disk[w.handlers[e.h].id := Dir(Some(w.handlers[e.h].pc.outcome), e.now)]
  {
  }

  /** Left alone, a handler that finds an overdue directory replaces it by its own. */
  lemma SoloReclaims(w: World, h: nat, id: Id, now: int)
    requires h < |w.handlers| && w.handlers[h] == Handler(id, Judging)
    requires id in w.disk && Overdue(w.disk[id], now)
    ensures var events := [Judge(h, now), RemoveStale(h), RemakeDirectory(h, now)];
      && RunOk(w, events)
      && RunWorld(w, events).disk == w.disk[id := Dir(None, now)]
      && RunWorld(w, events).handlers == w.handlers[h := Handler(id, Claimed)]
  {
    var w1 := Step(w, Judge(h, now));
    var w2 := Step(w1, RemoveStale(h));
    var w3 := Step(w2, RemakeDirectory(h, now));
    OneEvent(w2, RemakeDirectory(h, now), []);
    OneEvent(w1, RemoveStale(h), [RemakeDirectory(h, now)]);
    OneEvent(w, Judge(h, now), [RemoveStale(h), RemakeDirectory(h, now)]);
    assert w3.handlers == w.handlers[h := Handler(id, Claimed)];
  }

  /** Left alone, a handler that finds any other directory answers from its record and runs nothing. */
  lemma SoloAnswers(w: World, h: nat, id: Id, now: int)
    requires h < |w.handlers| && w.handlers[h] == Handler(id, Judging)
    requires id in w.disk && !Overdue(w.disk[id], now)
    ensures RunOk(w, [Judge(h, now), ReadRefused(h)])
    ensures RunWorld(w, [Judge(h, now), ReadRefused(h)]) == w.(
      handlers := w.handlers[h := Handler(id, Answered)],
      replies := w.replies + {Reply(id, if w.disk[id].status.None? then Some(Payload.Running(None))
                                        else w.disk[id].status)})
  {
    var w1 := Step(w, Judge(h, now));
    var w2 := Step(w1, ReadRefused(h));
    OneEvent(w1, ReadRefused(h), []);
    OneEvent(w, Judge(h, now), [ReadRefused(h)]);
    assert w2.handlers == w.handlers[h := Handler(id, Answered)];
  }

  // ---------------------------------------------------------------- the invariant of a retained id

  /** The handler that made the directory of its id. */
  predicate Owns(p: Handler) {
    p.pc.Claimed? || p.pc.Executing? || p.pc.Computed? || p.pc.Stored?
  }

  /** The owner and the status file always agree. */
  predicate OwnerAgrees(p: Handler, disk: Disk) {
    Owns(p) ==>
      && p.id in disk
      && match p.pc
         case Claimed => disk[p.id].status.None?
         case Executing => disk[p.id].status.Some? && disk[p.id].status.value.Running?
         case Computed(outcome, _) => disk[p.id].status.Some? && disk[p.id].status.value.Running? && outcome.Ended()
         case Stored(outcome) => disk[p.id].status == Some(outcome) && outcome.Ended()
         case _ => true
  }

  /** Who did not win the directory has seen it; nobody has removed it. */
  predicate WaitsProperly(p: Handler, disk: Disk) {
    !p.pc.Remaking? && (p.pc.Judging? || p.pc.Removing? || p.pc.Refused? || p.pc.Answered? ==> p.id in disk)
  }

  ghost predicate HandlersAgree(w: World, id: Id) {
    forall h :: 0 <= h < |w.handlers| && w.handlers[h].id == id ==>
      OwnerAgrees(w.handlers[h], w.disk) && WaitsProperly(w.handlers[h], w.disk)
  }

  predicate OwnsId(p: Handler, id: Id) {
    p.id == id && Owns(p)
  }

  ghost predicate SingleOwner(handlers: seq<Handler>, id: Id) {
    forall i, j :: 0 <= i < j < |handlers| ==> !OwnsId(handlers[i], id) || !OwnsId(handlers[j], id)
  }

  ghost predicate HasOwner(handlers: seq<Handler>, id: Id) {
    exists h :: 0 <= h < |handlers| && OwnsId(handlers[h], id)
  }

  predicate HonestReply(r: Reply, disk: Disk) {
    r.payload.Some? ==>
      r.payload.value.Running? || (r.id in disk && disk[r.id].status == r.payload && r.payload.value.Ended())
  }

  ghost predicate RepliesHonest(w: World, id: Id) {
    forall r :: r in w.replies && r.id == id ==> HonestReply(r, w.disk)
  }

  predicate HasOutcome(p: Handler) {
    p.pc.Computed? || p.pc.Stored?
  }

  /** A logged run belongs to an owner that has its outcome. */
  ghost predicate RanOk(r: Ran, handlers: seq<Handler>) {
    && r.handler < |handlers| && handlers[r.handler].id == r.id
    && HasOutcome(handlers[r.handler]) && handlers[r.handler].pc.outcome == r.outcome
  }

  /** The log and the owners' outcomes are the same runs, each once. */
  ghost predicate RunsAgree(w: World, id: Id) {
    && (forall r :: r in w.ran && r.id == id ==> RanOk(r, w.handlers))
    && (forall i, j :: 0 <= i < j < |w.ran| && w.ran[i].id == id && w.ran[j].id == id
          ==> w.ran[i].handler != w.ran[j].handler)
    && (forall h :: 0 <= h < |w.handlers| && w.handlers[h].id == id && HasOutcome(w.handlers[h])
          ==> Ran(h, id, w.handlers[h].pc.outcome) in w.ran)
  }

  ghost predicate IdInv(w: World, id: Id) {
    && HandlersAgree(w, id)
    && SingleOwner(w.handlers, id)
    && (id in w.disk ==> HasOwner(w.handlers, id))
    && RepliesHonest(w, id)
    && RunsAgree(w, id)
  }

  /** A status file only moves forward: written once as running, once with the outcome. */
  ghost predicate RecordEvolves(a: Disk, b: Disk, id: Id) {
    id in a ==> id in b && (a[id].status.Some? && a[id].status.value.Ended() ==> b[id].status == a[id].status)
  }

  // ---------------------------------------------------------------- what happens to other ids

  /** Nothing that concerns `id` differs, but for new handlers that have not started. */
  ghost predicate SameFor(w: World, n: World, id: Id) {
    && |w.handlers| <= |n.handlers|
    && (forall h :: 0 <= h < |w.handlers| ==> n.handlers[h].id == w.handlers[h].id)
    && (forall h :: 0 <= h < |w.handlers| && w.handlers[h].id == id ==> n.handlers[h] == w.handlers[h])
    && (forall h :: |w.handlers| <= h < |n.handlers| ==> n.handlers[h].pc == Arrived)
    && (id in n.disk <==> id in w.disk) && (id in w.disk ==> n.disk[id] == w.disk[id])
    && (forall r :: r in n.replies && r.id == id ==> r in w.replies)
    && w.ran <= n.ran && (forall k :: |w.ran| <= k < |n.ran| ==> n.ran[k].id != id)
  }

  lemma OtherStep(w: World, e: Event, id: Id)
    requires Enabled(w, e) && (EventId(w, e) != id || e.Post?)
    ensures SameFor(w, Step(w, e), id)
  {
  }

  lemma SameOwners(w: World, n: World, id: Id)
    requires SameFor(w, n, id) && HandlersAgree(w, id) && SingleOwner(w.handlers, id)
    requires id in w.disk ==> HasOwner(w.handlers, id)
    ensures HandlersAgree(n, id) && SingleOwner(n.handlers, id)
    ensures id in n.disk ==> HasOwner(n.handlers, id)
  {
    if id in n.disk {
      var o :| 0 <= o < |w.handlers| && OwnsId(w.handlers[o], id);
      assert OwnsId(n.handlers[o], id);
    }
  }

  lemma SameRuns(w: World, n: World, id: Id)
    requires SameFor(w, n, id) && RunsAgree(w, id)
    ensures RunsAgree(n, id)
  {
    forall r | r in n.ran && r.id == id ensures r in w.ran && RanOk(r, n.handlers) {
      var k :| 0 <= k < |n.ran| && n.ran[k] == r;
      assert w.ran[k] == r;
      assert RanOk(r, w.handlers);
    }
    forall h | 0 <= h < |n.handlers| && n.handlers[h].id == id && HasOutcome(n.handlers[h])
      ensures Ran(h, id, n.handlers[h].pc.outcome) in n.ran
    {
      assert Ran(h, id, w.handlers[h].pc.outcome) in w.ran;
    }
  }

  lemma OthersKeep(w: World, n: World, id: Id)
    requires IdInv(w, id) && SameFor(w, n, id)
    ensures IdInv(n, id)
  {
    SameOwners(w, n, id);
    SameRuns(w, n, id);
    forall r | r in n.replies && r.id == id ensures HonestReply(r, n.disk) {
      assert HonestReply(r, w.disk);
    }
  }

  // ---------------------------------------------------------------- the steps of the id itself

  lemma OwnerElsewhere(handlers: seq<Handler>, h: nat, p: Handler, id: Id)
    requires h < |handlers| && HasOwner(handlers, id) && (OwnsId(handlers[h], id) ==> OwnsId(p, id))
    ensures HasOwner(handlers[h := p], id)
  {
    var o :| 0 <= o < |handlers| && OwnsId(handlers[o], id);
    assert OwnsId(handlers[h := p][o], id);
  }

  /** A handler that neither owns nor wins moves on. */
  lemma AdvanceKeeps(w: World, h: nat, pc: Pc)
    requires h < |w.handlers|
    requires var id := w.handlers[h].id; IdInv(w, id) && WaitsProperly(Handler(id, pc), w.disk)
    requires !Owns(w.handlers[h]) && !Owns(Handler(w.handlers[h].id, pc))
    ensures IdInv(Goto(w, h, pc), w.handlers[h].id)
  {
    var id := w.handlers[h].id;
    if id in w.disk {
      OwnerElsewhere(w.handlers, h, Handler(id, pc), id);
    }
    forall r | r in w.ran && r.id == id ensures RanOk(r, Goto(w, h, pc).handlers) {
      assert RanOk(r, w.handlers);
    }
  }

  /** The winner of a directory is its first owner. */
  lemma MkdirKeeps(w: World, h: nat, now: int)
    requires At(w, h, Arrived) && w.handlers[h].id !in w.disk && IdInv(w, w.handlers[h].id)
    ensures IdInv(Step(w, Mkdir(h, now)), w.handlers[h].id)
  {
    var n, id := Step(w, Mkdir(h, now)), w.handlers[h].id;
    forall i | 0 <= i < |w.handlers| && i != h ensures !OwnsId(w.handlers[i], id) {
      assert w.handlers[i].id == id ==> OwnerAgrees(w.handlers[i], w.disk);
    }
    assert OwnsId(n.handlers[h], id);
    forall r | r in w.replies && r.id == id ensures HonestReply(r, n.disk) {
      assert HonestReply(r, w.disk);
    }
    forall r | r in w.ran ensures r.id != id {
      assert r.id == id ==> RanOk(r, w.handlers);
    }
  }

  /** What stays when the owner itself moves: it is still the only one. */
  lemma OwnerStays(w: World, h: nat, p: Handler, id: Id)
    requires h < |w.handlers| && SingleOwner(w.handlers, id) && OwnsId(w.handlers[h], id) && OwnsId(p, id)
    ensures SingleOwner(w.handlers[h := p], id) && HasOwner(w.handlers[h := p], id)
    ensures forall i :: 0 <= i < |w.handlers| && i != h ==> !OwnsId(w.handlers[i], id)
  {
    assert OwnsId(w.handlers[h := p][h], id);
  }

  lemma WriteRunningKeeps(w: World, h: nat, now: int)
    requires At(w, h, Claimed) && IdInv(w, w.handlers[h].id)
    ensures IdInv(Step(w, WriteRunning(h, now)), w.handlers[h].id)
  {
    var n, id := Step(w, WriteRunning(h, now)), w.handlers[h].id;
    assert OwnerAgrees(w.handlers[h], w.disk);
    OwnerStays(w, h, n.handlers[h], id);
    forall r | r in w.replies && r.id == id ensures HonestReply(r, n.disk) {
      assert HonestReply(r, w.disk);
    }
    forall r | r in w.ran && r.id == id ensures RanOk(r, n.handlers) {
      assert RanOk(r, w.handlers);
    }
  }

  lemma RunCodeLogs(w: World, h: nat, outcome: Payload, raised: bool)
    requires Enabled(w, RunCode(h, outcome, raised)) && RunsAgree(w, w.handlers[h].id)
    ensures RunsAgree(Step(w, RunCode(h, outcome, raised)), w.handlers[h].id)
  {
    var n, id := Step(w, RunCode(h, outcome, raised)), w.handlers[h].id;
    forall r | r in w.ran && r.id == id ensures RanOk(r, n.handlers) && r.handler != h {
      assert RanOk(r, w.handlers);
    }
    assert n.ran[|w.ran|] in n.ran;
    forall i | 0 <= i < |n.handlers| && n.handlers[i].id == id && HasOutcome(n.handlers[i])
      ensures Ran(i, id, n.handlers[i].pc.outcome) in n.ran
    {
      if i != h {
        assert Ran(i, id, w.handlers[i].pc.outcome) in w.ran;
      }
    }
  }

  lemma RunCodeKeeps(w: World, h: nat, outcome: Payload, raised: bool)
    requires Enabled(w, RunCode(h, outcome, raised)) && IdInv(w, w.handlers[h].id)
    ensures IdInv(Step(w, RunCode(h, outcome, raised)), w.handlers[h].id)
  {
    var n, id := Step(w, RunCode(h, outcome, raised)), w.handlers[h].id;
    assert OwnerAgrees(w.handlers[h], w.disk);
    OwnerStays(w, h, n.handlers[h], id);
    RunCodeLogs(w, h, outcome, raised);
  }

  lemma FinishRunKeeps(w: World, h: nat, now: int)
    requires Enabled(w, FinishRun(h, now)) && IdInv(w, w.handlers[h].id)
    ensures IdInv(Step(w, FinishRun(h, now)), w.handlers[h].id)
  {
    var n, id := Step(w, FinishRun(h, now)), w.handlers[h].id;
    assert OwnerAgrees(w.handlers[h], w.disk);
    OwnerStays(w, h, n.handlers[h], id);
    forall r | r in w.replies && r.id == id ensures HonestReply(r, n.disk) {
      assert HonestReply(r, w.disk);
    }
    forall r | r in w.ran && r.id == id ensures RanOk(r, n.handlers) {
      assert RanOk(r, w.handlers);
    }
    assert Ran(h, id, w.handlers[h].pc.outcome) in w.ran;
  }

  /** What a read may answer is honest, and it is never absent once a directory exists. */
  lemma ReadIsHonest(w: World, id: Id)
    requires IdInv(w, id)
    ensures HonestReply(Reply(id, ReadDisk(w.disk, id)), w.disk)
    ensures id in w.disk ==> ReadDisk(w.disk, id).Some?
  {
    if id in w.disk {
      var o :| 0 <= o < |w.handlers| && OwnsId(w.handlers[o], id);
      assert OwnerAgrees(w.handlers[o], w.disk);
    }
  }

  lemma OwnStep(w: World, e: Event)
    requires Enabled(w, e) && IdInv(w, EventId(w, e)) && !e.Post? && !e.RemoveStale? && !e.SweepOne?
    ensures IdInv(Step(w, e), EventId(w, e))
  {
    var id := EventId(w, e);
    assert !e.Get? ==> WaitsProperly(w.handlers[e.h], w.disk);
    match e
    case Mkdir(h, now) =>
      if id in w.disk {
        AdvanceKeeps(w, h, Judging);
      } else {
        MkdirKeeps(w, h, now);
      }
    case Judge(h, now) => AdvanceKeeps(w, h, if IsStale(w.disk[id], now) then Removing else Refused);
    case RemakeDirectory(_, _) => assert false;
    case WriteRunning(h, now) => WriteRunningKeeps(w, h, now);
    case ReadRefused(h) =>
      ReadIsHonest(w, id);
      AdvanceKeeps(w, h, Answered);
    case RunCode(h, outcome, raised) => RunCodeKeeps(w, h, outcome, raised);
    case FinishRun(h, now) => FinishRunKeeps(w, h, now);
    case Get(_) => ReadIsHonest(w, id);
  }

  lemma StepKeepsId(w: World, e: Event, id: Id)
    requires IdInv(w, id) && Enabled(w, e) && Permits(w, e, id, false, false)
    ensures IdInv(Step(w, e), id)
  {
    if EventId(w, e) != id || e.Post? {
      OtherStep(w, e, id);
      OthersKeep(w, Step(w, e), id);
    } else {
      OwnStep(w, e);
    }
  }

  lemma {:induction false} RunKeepsId(w: World, events: seq<Event>, id: Id)
    requires IdInv(w, id) && RunOk(w, events) && RunRetains(w, events, id)
    ensures IdInv(RunWorld(w, events), id)
    decreases |events|
  {
    if events != [] {
      StepKeepsId(w, events[0], id);
      RunKeepsId(Step(w, events[0]), events[1..], id);
    }
  }

  // ---------------------------------------------------------------- what the store guarantees

  lemma RecordStep(w: World, e: Event, id: Id)
    requires IdInv(w, id) && Enabled(w, e) && Permits(w, e, id, false, false)
    ensures RecordEvolves(w.disk, Step(w, e).disk, id)
  {
    if EventId(w, e) != id || e.Post? {
      OtherStep(w, e, id);
    } else if e.WriteRunning? || e.FinishRun? {
      assert OwnerAgrees(w.handlers[e.h], w.disk);
    }
  }

  lemma {:induction false} RunEvolvesRecord(w: World, events: seq<Event>, id: Id)
    requires IdInv(w, id) && RunOk(w, events) && RunRetains(w, events, id)
    ensures RecordEvolves(w.disk, RunWorld(w, events).disk, id)
    decreases |events|
  {
    if events != [] {
      StepKeepsId(w, events[0], id);
      RecordStep(w, events[0], id);
      RunEvolvesRecord(Step(w, events[0]), events[1..], id);
    }
  }

  /** A world some run leads to in which nothing removed the directory of `id`. */
  ghost predicate Reachable(w: World, id: Id) {
    exists events :: Leads(events, w, id)
  }

  ghost predicate Leads(events: seq<Event>, w: World, id: Id) {
    RunOk(EMPTY_WORLD, events) && RunRetains(EMPTY_WORLD, events, id) && RunWorld(EMPTY_WORLD, events) == w
  }

  lemma ReachableIsGood(w: World, id: Id)
    requires Reachable(w, id)
    ensures IdInv(w, id)
  {
    var events :| Leads(events, w, id);
    RunKeepsId(EMPTY_WORLD, events, id);
  }

  ghost predicate RanTwice(w: World, id: Id) {
    exists i, j :: 0 <= i < j < |w.ran| && w.ran[i].id == id && w.ran[j].id == id
  }

  /** Whatever the interleaving, however many requests, wherever handlers stop and whatever is removed for
      other ids: while the directory of an id stays, its code runs at most once. */
  lemma ExactlyOnce(w: World, id: Id)
    requires Reachable(w, id)
    ensures !RanTwice(w, id)
  {
    ReachableIsGood(w, id);
    forall i, j | 0 <= i < j < |w.ran| ensures w.ran[i].id != id || w.ran[j].id != id {
      if w.ran[i].id == id && w.ran[j].id == id {
        assert w.ran[i] in w.ran && w.ran[j] in w.ran;
        assert RanOk(w.ran[i], w.handlers) && RanOk(w.ran[j], w.handlers);
        TwoOwners(w, w.ran[i].handler, w.ran[j].handler, id);
      }
    }
  }

  lemma TwoOwners(w: World, g: nat, h: nat, id: Id)
    requires SingleOwner(w.handlers, id) && g < |w.handlers| && h < |w.handlers|
    requires OwnsId(w.handlers[g], id) && OwnsId(w.handlers[h], id)
    ensures g == h
  {
  }

  /** From a claim on, every read answers something; and an ended record answers the same for ever. */
  lemma RecordsLast(w: World, events: seq<Event>, id: Id)
    requires Reachable(w, id) && RunOk(w, events) && RunRetains(w, events, id) && id in w.disk
    ensures var later := RunWorld(w, events).disk;
      && id in later && ReadDisk(later, id).Some?
      && (ReadDisk(w.disk, id).value.Ended() ==> ReadDisk(later, id) == ReadDisk(w.disk, id))
  {
    ReachableIsGood(w, id);
    RunEvolvesRecord(w, events, id);
    RunKeepsId(w, events, id);
    ReadIsHonest(RunWorld(w, events), id);
  }

  /** An ended record is the outcome of the one run of its id. */
  lemma EndedRecordRan(w: World, id: Id)
    requires Reachable(w, id) && id in w.disk && w.disk[id].status.Some? && w.disk[id].status.value.Ended()
    ensures exists r :: r in w.ran && r.id == id && r.outcome == w.disk[id].status.value
  {
    ReachableIsGood(w, id);
    var o :| 0 <= o < |w.handlers| && OwnsId(w.handlers[o], id);
    assert OwnerAgrees(w.handlers[o], w.disk);
    assert Ran(o, id, w.handlers[o].pc.outcome) in w.ran;
  }

  // ---------------------------------------------------------------- the client

  /** What comes back from one request: a payload, a 404, or a communication failure. */
  datatype Net = Response(payload: Payload) | NotFound | Unreachable

  const CONNECT_RETRIES := 3

  /** The first payload among the answers to alternating posts and lookups. */
  function FirstAnswer(posts: seq<Net>, gets: seq<Net>): Option<Payload>
    requires |posts| == |gets|
    decreases |posts|
  {
    if posts == [] then None
    else if posts[0].Response? then Some(posts[0].payload)
    else if gets[0].Response? then Some(gets[0].payload)
    else FirstAnswer(posts[1..], gets[1..])
  }

  /** `_start`: post, and after a failure ask whether the worker got it anyway. */
  method StartExecution(posts: seq<Net>, gets: seq<Net>) returns (payload: Option<Payload>)
    requires |posts| == |gets| == CONNECT_RETRIES
    ensures payload == FirstAnswer(posts, gets)
    ensures payload.Some? ==> Response(payload.value) in posts || Response(payload.value) in gets
  {
    for attempt := 0 to CONNECT_RETRIES
      invariant FirstAnswer(posts, gets) == FirstAnswer(posts[attempt..], gets[attempt..])
    {
      if posts[attempt].Response? {
        assert posts[attempt] in posts;
        return Some(posts[attempt].payload);
      }
      if gets[attempt].Response? {
        assert gets[attempt] in gets;
        return Some(gets[attempt].payload);
      }
      assert posts[attempt..][1..] == posts[attempt + 1..] && gets[attempt..][1..] == gets[attempt + 1..];
      if attempt == CONNECT_RETRIES - 1 {
        return None;
      }
    }
    return None;
  }

  const LOST := Payload.Failed("record lost")

  /** The payload after the polls that fit before the deadline. */
  function Awaited(payload: Payload, polls: seq<Net>): Payload
    decreases |polls|
  {
    if !payload.Running? || polls == [] then payload
    else
      match polls[0]
      case Unreachable => Awaited(payload, polls[1..])
      case NotFound => LOST
      case Response(p) => Awaited(p, polls[1..])
  }

  /** `_await_finish`; `polls` are the lookups made before the deadline. */
  method AwaitFinish(first: Payload, polls: seq<Net>) returns (payload: Payload)
    ensures payload == Awaited(first, polls)
    ensures payload == first || payload == LOST || Response(payload) in polls
  {
    payload := first;
    var k := 0;
    while payload.Running?
      invariant 0 <= k <= |polls|
      invariant Awaited(first, polls) == Awaited(payload, polls[k..])
      invariant payload == first || Response(payload) in polls
      decreases |polls| - k
    {
      if k == |polls| {
        return;
      }
      assert polls[k..][1..] == polls[k + 1..];
      var fetched := polls[k];
      k := k + 1;
      match fetched
      case Unreachable => continue;
      case NotFound =>
        payload := LOST;
        return;
      case Response(p) =>
        assert fetched in polls;
        payload := p;
    }
  }

  datatype SandboxResult = Accepted(result: string) | Unsuccessful

  /** `_materialize`: only a succeeded payload with a result and readable figures is accepted. */
  function Materialize(p: Payload): SandboxResult {
    if p.Succeeded? && p.result.Some? && p.figuresDecode then Accepted(p.result.value) else Unsuccessful
  }

  function ClientResult(posts: seq<Net>, gets: seq<Net>, polls: seq<Net>): SandboxResult
    requires |posts| == |gets|
  {
    match FirstAnswer(posts, gets)
    case None => Unsuccessful
    case Some(p) => Materialize(Awaited(p, polls))
  }

  /** The payload that ends `_start`: no earlier post or lookup was answered. */
  predicate Answers(posts: seq<Net>, gets: seq<Net>, k: nat, p: Payload)
    requires |posts| == |gets|
  {
    && k < |posts|
    && (posts[k] == Response(p) || (!posts[k].Response? && gets[k] == Response(p)))
    && forall j | 0 <= j < k :: !posts[j].Response? && !gets[j].Response?
  }

  /** The payload that ends the polling: the first one if it has ended, otherwise the first ended one polled,
      with only running records and failed lookups before it. */
  ghost predicate Settles(first: Payload, polls: seq<Net>, p: Payload) {
    !p.Running? && (first == p || (first.Running? && exists k: nat :: PolledFirst(polls, k, p)))
  }

  predicate PolledFirst(polls: seq<Net>, k: nat, p: Payload) {
    && k < |polls| && polls[k] == Response(p)
    && forall j | 0 <= j < k :: polls[j].Unreachable? || (polls[j].Response? && polls[j].payload.Running?)
  }

  /** What the client hands on: a succeeded payload with this result and readable figures. */
  predicate Usable(p: Payload, result: string) {
    p.Succeeded? && p.result == Some(result) && p.figuresDecode
  }

  ghost predicate Delivers(posts: seq<Net>, gets: seq<Net>, polls: seq<Net>, result: string)
    requires |posts| == |gets|
  {
    exists k: nat, first, p :: Answers(posts, gets, k, first) && Settles(first, polls, p) && Usable(p, result)
  }

  lemma {:induction false} FirstAnswerMeaning(posts: seq<Net>, gets: seq<Net>, p: Payload)
    requires |posts| == |gets|
    ensures FirstAnswer(posts, gets) == Some(p) <==> exists k: nat :: Answers(posts, gets, k, p)
    decreases |posts|
  {
    if posts != [] {
      if posts[0].Response? || gets[0].Response? {
        assert Answers(posts, gets, 0, FirstAnswer(posts, gets).value);
      } else {
        FirstAnswerMeaning(posts[1..], gets[1..], p);
        if k: nat :| Answers(posts, gets, k, p) {
          AnswersLater(posts, gets, k - 1, p);
        }
        if k: nat :| Answers(posts[1..], gets[1..], k, p) {
          AnswersLater(posts, gets, k, p);
          assert Answers(posts, gets, k + 1, p);
        }
      }
    }
  }

  lemma AnswersLater(posts: seq<Net>, gets: seq<Net>, k: nat, p: Payload)
    requires |posts| == |gets| > 0 && !posts[0].Response? && !gets[0].Response?
    ensures Answers(posts, gets, k + 1, p) <==> Answers(posts[1..], gets[1..], k, p)
  {
    if Answers(posts[1..], gets[1..], k, p) {
      forall j | 0 <= j < k + 1 ensures !posts[j].Response? && !gets[j].Response? {
        assert j > 0 ==> posts[j] == posts[1..][j - 1] && gets[j] == gets[1..][j - 1];
      }
    }
    if Answers(posts, gets, k + 1, p) {
      forall j | 0 <= j < k ensures !posts[1..][j].Response? && !gets[1..][j].Response? {
        assert posts[1..][j] == posts[j + 1] && gets[1..][j] == gets[j + 1];
      }
    }
  }

  lemma PolledLater(polls: seq<Net>, k: nat, p: Payload)
    requires polls != [] && (polls[0].Unreachable? || (polls[0].Response? && polls[0].payload.Running?))
    ensures PolledFirst(polls, k + 1, p) <==> PolledFirst(polls[1..], k, p)
  {
    if PolledFirst(polls[1..], k, p) {
      forall j | 0 <= j < k + 1 ensures polls[j].Unreachable? || (polls[j].Response? && polls[j].payload.Running?) {
        assert j > 0 ==> polls[j] == polls[1..][j - 1];
      }
    }
    if PolledFirst(polls, k + 1, p) {
      forall j | 0 <= j < k
        ensures polls[1..][j].Unreachable? || (polls[1..][j].Response? && polls[1..][j].payload.Running?) {
        assert polls[1..][j] == polls[j + 1];
      }
    }
  }

  /** Polling hands on a succeeded payload exactly when that payload settles it. */
  lemma {:induction false} AwaitedMeaning(first: Payload, polls: seq<Net>, p: Payload)
    requires p.Succeeded?
    ensures Awaited(first, polls) == p <==> Settles(first, polls, p)
    decreases |polls|
  {
    if first.Running? && polls != [] {
      match polls[0]
      case Unreachable =>
        AwaitedMeaning(first, polls[1..], p);
        PolledAfter(polls, p);
      case NotFound =>
        assert forall k: nat :: !PolledFirst(polls, k, p);
      case Response(q) =>
        AwaitedMeaning(q, polls[1..], p);
        if q.Running? {
          PolledAfter(polls, p);
        } else {
          assert PolledFirst(polls, 0, q);
        }
    }
  }

  lemma PolledAfter(polls: seq<Net>, p: Payload)
    requires !p.Running?
    requires polls != [] && (polls[0].Unreachable? || (polls[0].Response? && polls[0].payload.Running?))
    ensures (exists k: nat :: PolledFirst(polls, k, p)) <==> exists k: nat :: PolledFirst(polls[1..], k, p)
  {
    if k: nat :| PolledFirst(polls, k, p) {
      PolledLater(polls, k - 1, p);
    }
    if k: nat :| PolledFirst(polls[1..], k, p) {
      PolledLater(polls, k, p);
      assert PolledFirst(polls, k + 1, p);
    }
  }

  /** The client accepts a result exactly when the payload that settles the exchange carries it. */
  lemma AcceptedIff(posts: seq<Net>, gets: seq<Net>, polls: seq<Net>, result: string)
    requires |posts| == |gets|
    ensures ClientResult(posts, gets, polls) == Accepted(result) <==> Delivers(posts, gets, polls, result)
  {
    if ClientResult(posts, gets, polls) == Accepted(result) {
      var first := FirstAnswer(posts, gets).value;
      var p := Awaited(first, polls);
      FirstAnswerMeaning(posts, gets, first);
      var k: nat :| Answers(posts, gets, k, first);
      AwaitedMeaning(first, polls, p);
      assert Usable(p, result);
    }
    if k: nat, first, p :| Answers(posts, gets, k, first) && Settles(first, polls, p) && Usable(p, result) {
      FirstAnswerMeaning(posts, gets, first);
      AwaitedMeaning(first, polls, p);
    }
  }

  /** The remote run: a result is accepted exactly when the first payload that answered, or the first ended one
      polled after it, succeeded with that result and readable figures; everything else is unsuccessful. */
  method RunRemotely(posts: seq<Net>, gets: seq<Net>, polls: seq<Net>) returns (r: SandboxResult)
    requires |posts| == |gets| == CONNECT_RETRIES
    ensures r == ClientResult(posts, gets, polls)
    ensures forall result :: r == Accepted(result) <==> Delivers(posts, gets, polls, result)
    ensures r == Unsuccessful <==> forall result :: !Delivers(posts, gets, polls, result)
  {
    forall result ensures ClientResult(posts, gets, polls) == Accepted(result) <==>
      Delivers(posts, gets, polls, result) {
      AcceptedIff(posts, gets, polls, result);
    }
    var started := StartExecution(posts, gets);
    if started.None? {
      return Unsuccessful;
    }
    var payload := AwaitFinish(started.value, polls);
    return Materialize(payload);
  }

  /** Whatever arrived was sent for this id; anything sent may have been lost, repeated or delayed. */
  predicate Sent(w: World, id: Id, answers: seq<Net>) {
    forall a | a in answers :: a.Response? ==> Reply(id, Some(a.payload)) in w.replies
  }

  /** Through retries and lost responses, a result the client accepts is the stored outcome of the one run of
      its execution id. */
  lemma AcceptedResultIsStored(w: World, id: Id, posts: seq<Net>, gets: seq<Net>, polls: seq<Net>)
    requires Reachable(w, id) && |posts| == |gets| && Sent(w, id, posts) && Sent(w, id, gets) && Sent(w, id, polls)
    requires ClientResult(posts, gets, polls).Accepted?
    ensures id in w.disk && w.disk[id].status.Some? && w.disk[id].status.value.Succeeded?
    ensures w.disk[id].status.value.result == Some(ClientResult(posts, gets, polls).result)
    ensures exists r :: r in w.ran && r.id == id && r.outcome == w.disk[id].status.value
    ensures !RanTwice(w, id)
  {
    ReachableIsGood(w, id);
    ExactlyOnce(w, id);
    AcceptedIff(posts, gets, polls, ClientResult(posts, gets, polls).result);
    var k: nat, first, p :| Answers(posts, gets, k, first) && Settles(first, polls, p)
      && Usable(p, ClientResult(posts, gets, polls).result);
    var reply := Reply(id, Some(p));
    assert reply in w.replies by {
      if first == p {
        assert posts[k] in posts && gets[k] in gets;
      } else {
        var m: nat :| PolledFirst(polls, m, p);
        assert polls[m] in polls;
      }
    }
    assert HonestReply(reply, w.disk);
    EndedRecordRan(w, id);
  }

  // ---------------------------------------------------------------- why records must be retained

  /** Some continuation, without another removal for `id`, runs its code twice. */
  ghost predicate MayRunTwice(w: World, id: Id) {
    exists events :: RunsTwice(w, events, id)
  }

  ghost predicate RunsTwice(w: World, events: seq<Event>, id: Id) {
    RunOk(w, events) && RunRetains(w, events, id) && RanTwice(RunWorld(w, events), id)
  }

  lemma Then(w: World, e: Event, id: Id)
    requires Enabled(w, e) && Permits(w, e, id, false, false) && MayRunTwice(Step(w, e), id)
    ensures MayRunTwice(w, id)
  {
    var rest :| RunsTwice(Step(w, e), rest, id);
    assert ([e] + rest)[0] == e && ([e] + rest)[1..] == rest;
    assert RunsTwice(w, [e] + rest, id);
  }

  const OUTCOME := Succeeded(Some("{}"), true)

  predicate HasRun(w: World, id: Id) {
    exists r | r in w.ran :: r.id == id
  }

  lemma SecondRun(w: World, h: nat, id: Id)
    requires At(w, h, Executing) && w.handlers[h].id == id && HasRun(w, id)
    ensures MayRunTwice(w, id)
  {
    var e := RunCode(h, OUTCOME, false);
    var n := Step(w, e);
    var r :| r in w.ran && r.id == id;
    var i :| 0 <= i < |w.ran| && w.ran[i] == r;
    assert n.ran[i].id == id && n.ran[|w.ran|].id == id;
    assert RunsTwice(n, [], id);
    Then(w, e, id);
  }

  /** A handler that owned the directory before it was removed still runs its code, or already has. */
  lemma OldOwnerRuns(w: World, h: nat, id: Id)
    requires h < |w.handlers| && OwnsId(w.handlers[h], id) && HasRun(w, id)
    requires HasOutcome(w.handlers[h]) ==> RanTwice(w, id)
    ensures MayRunTwice(w, id)
  {
    if HasOutcome(w.handlers[h]) {
      assert RunsTwice(w, [], id);
    } else if w.handlers[h].pc.Executing? {
      SecondRun(w, h, id);
    } else {
      var n := Step(w, WriteRunning(h, 0));
      assert HasRun(n, id);
      SecondRun(n, h, id);
      Then(w, WriteRunning(h, 0), id);
    }
  }

  /** The world after a new request for an absent id has claimed it and run its code. */
  function Rerun(w: World, id: Id): World {
    w.(disk := WriteStatus(w.disk, id, Payload.Running(Some(0)), 0),
       handlers := w.handlers + [Handler(id, Computed(OUTCOME, false))],
       ran := w.ran + [Ran(|w.handlers|, id, OUTCOME)])
  }

  lemma NewRequestRuns(w: World, id: Id)
    requires id !in w.disk && MayRunTwice(Rerun(w, id), id)
    ensures MayRunTwice(w, id)
  {
    var k := |w.handlers|;
    var w1 := Step(w, Post(id));
    var w2 := Step(w1, Mkdir(k, 0));
    var w3 := Step(w2, WriteRunning(k, 0));
    assert w3.handlers == w.handlers + [Handler(id, Executing)];
    var w4 := Step(w3, RunCode(k, OUTCOME, false));
    assert w4.handlers == Rerun(w, id).handlers;
    assert w3.disk == Rerun(w, id).disk;
    assert w4 == Rerun(w, id);
    Then(w3, RunCode(k, OUTCOME, false), id);
    Then(w2, WriteRunning(k, 0), id);
    Then(w1, Mkdir(k, 0), id);
    Then(w, Post(id), id);
  }

  predicate Removes(w: World, e: Event, id: Id)
    requires Enabled(w, e)
  {
    EventId(w, e) == id && (e.RemoveStale? || e.SweepOne?)
  }

  /** Whenever the directory of an id is there, removing it once, by either route, is enough: a new request
      can claim the id again, while the run of the previous owner stands or still goes on. */
  lemma OneRemovalSuffices(w: World, e: Event, id: Id)
    requires Reachable(w, id) && id in w.disk && Enabled(w, e) && Removes(w, e, id)
    ensures MayRunTwice(Step(w, e), id)
  {
    ReachableIsGood(w, id);
    var o :| 0 <= o < |w.handlers| && OwnsId(w.handlers[o], id);
    var n := Step(w, e);
    assert n.handlers[o] == w.handlers[o];
    var m := Rerun(n, id);
    assert m.ran[|n.ran|] in m.ran && m.handlers[o] == w.handlers[o];
    if HasOutcome(w.handlers[o]) {
      var r := Ran(o, id, w.handlers[o].pc.outcome);
      assert r in w.ran;
      var i :| 0 <= i < |w.ran| && w.ran[i] == r;
      assert m.ran[i].id == id && m.ran[|n.ran|].id == id;
    }
    OldOwnerRuns(m, o, id);
    NewRequestRuns(n, id);
  }

  // ---------------------------------------------------------------- the exact condition

  lemma Extend(w: World, e: Event, id: Id)
    requires Reachable(w, id) && Enabled(w, e) && Permits(w, e, id, false, false)
    ensures Reachable(Step(w, e), id)
  {
    var events :| Leads(events, w, id);
    LastStep(EMPTY_WORLD, events, e, id, false, false);
    assert Leads(events + [e], Step(w, e), id);
  }

  lemma {:induction false} LastStep(w: World, events: seq<Event>, e: Event, id: Id, reclaim: bool, sweep: bool)
    requires RunOk(w, events) && RunPermits(w, events, id, reclaim, sweep)
    requires Enabled(RunWorld(w, events), e) && Permits(RunWorld(w, events), e, id, reclaim, sweep)
    ensures RunOk(w, events + [e]) && RunPermits(w, events + [e], id, reclaim, sweep)
    ensures RunWorld(w, events + [e]) == Step(RunWorld(w, events), e)
    decreases |events|
  {
    if events == [] {
      assert [] + [e] == [e] && [e][1..] == [];
    } else {
      LastStep(Step(w, events[0]), events[1..], e, id, reclaim, sweep);
      assert (events + [e])[0] == events[0] && (events + [e])[1..] == events[1..] + [e];
    }
  }

  lemma {:induction false} MorePermits(w: World, events: seq<Event>, id: Id, reclaim: bool, sweep: bool)
    requires RunOk(w, events) && RunRetains(w, events, id)
    ensures RunPermits(w, events, id, reclaim, sweep)
    decreases |events|
  {
    if events != [] {
      MorePermits(Step(w, events[0]), events[1..], id, reclaim, sweep);
    }
  }

  lemma {:induction false} RunJoins(w: World, xs: seq<Event>, ys: seq<Event>, id: Id, reclaim: bool, sweep: bool)
    requires RunOk(w, xs) && RunPermits(w, xs, id, reclaim, sweep)
    requires RunOk(RunWorld(w, xs), ys) && RunPermits(RunWorld(w, xs), ys, id, reclaim, sweep)
    ensures RunOk(w, xs + ys) && RunPermits(w, xs + ys, id, reclaim, sweep)
    ensures RunWorld(w, xs + ys) == RunWorld(RunWorld(w, xs), ys)
    decreases |xs|
  {
    if xs == [] {
      assert xs + ys == ys;
    } else {
      RunJoins(Step(w, xs[0]), xs[1..], ys, id, reclaim, sweep);
      assert (xs + ys)[0] == xs[0] && (xs + ys)[1..] == xs[1..] + ys;
    }
  }

  /** Handler 0 has made the directory of an id and not gone on. */
  function MadeAt(id: Id, now: int): World {
    World(map[id := Dir(None, now)], [Handler(id, Claimed)], [], {})
  }

  lemma MadeIsReachable(id: Id, now: int)
    ensures Reachable(MadeAt(id, now), id)
  {
    assert Leads([], EMPTY_WORLD, id);
    Extend(EMPTY_WORLD, Post(id), id);
    Extend(Step(EMPTY_WORLD, Post(id)), Mkdir(0, now), id);
    assert Step(Step(EMPTY_WORLD, Post(id)), Mkdir(0, now)) == MadeAt(id, now);
  }

  /** A second request has found that directory and judged it stale. */
  function JudgedStale(id: Id): World {
    World(map[id := Dir(None, 0)], [Handler(id, Claimed), Handler(id, Removing)], [], {})
  }

  lemma StaleIsReachable(id: Id)
    ensures Reachable(JudgedStale(id), id)
  {
    MadeIsReachable(id, 0);
    var w0, later := MadeAt(id, 0), STALE_RUNNING_SECONDS + 1;
    var w1 := Step(w0, Post(id));
    var w2 := Step(w1, Mkdir(1, later));
    Extend(w0, Post(id), id);
    Extend(w1, Mkdir(1, later), id);
    Extend(w2, Judge(1, later), id);
    assert Step(w2, Judge(1, later)) == JudgedStale(id);
  }

  /** One removal of a permitted kind, then the continuation that runs the code again. */
  lemma RemovalBreaks(w: World, e: Event, id: Id, reclaim: bool, sweep: bool)
    requires Reachable(w, id) && id in w.disk && Enabled(w, e) && Removes(w, e, id) && Permits(w, e, id, reclaim, sweep)
    ensures !Promised(id, reclaim, sweep)
  {
    var xs :| Leads(xs, w, id);
    OneRemovalSuffices(w, e, id);
    var ys :| RunsTwice(Step(w, e), ys, id);
    MorePermits(EMPTY_WORLD, xs, id, reclaim, sweep);
    LastStep(EMPTY_WORLD, xs, e, id, reclaim, sweep);
    MorePermits(Step(w, e), ys, id, reclaim, sweep);
    RunJoins(EMPTY_WORLD, xs + [e], ys, id, reclaim, sweep);
    assert RanTwice(RunWorld(EMPTY_WORLD, xs + [e] + ys), id);
  }

  /** The exactly-once promise for one id under a policy of which removals may happen to it. */
  ghost predicate Promised(id: Id, reclaim: bool, sweep: bool) {
    forall events :: RunOk(EMPTY_WORLD, events) && RunPermits(EMPTY_WORLD, events, id, reclaim, sweep)
      ==> !RanTwice(RunWorld(EMPTY_WORLD, events), id)
  }

  /** The promise holds for an id exactly when its directory may be neither reclaimed as stale nor swept; each
      kind of removal on its own breaks it. */
  lemma ExactlyOnceIffRetained(id: Id, reclaim: bool, sweep: bool)
    ensures Promised(id, reclaim, sweep) <==> !reclaim && !sweep
  {
    if sweep {
      MadeIsReachable(id, 0);
      RemovalBreaks(MadeAt(id, 0), SweepOne(id, 1), id, reclaim, sweep);
    } else if reclaim {
      StaleIsReachable(id);
      RemovalBreaks(JudgedStale(id), RemoveStale(1), id, reclaim, sweep);
    } else {
      forall events | RunOk(EMPTY_WORLD, events) && RunPermits(EMPTY_WORLD, events, id, false, false)
        ensures !RanTwice(RunWorld(EMPTY_WORLD, events), id)
      {
        assert Leads(events, RunWorld(EMPTY_WORLD, events), id);
        ExactlyOnce(RunWorld(EMPTY_WORLD, events), id);
      }
    }
  }
}
