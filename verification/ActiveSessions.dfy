/**
 The active-session registry: processes that lock, read, mutate, write a temporary
 file and rename it over the data file, any of which may fail or crash between any
 two steps, beside readers that take no lock. Files are inodes behind two names, so
 a reader that opened the data file goes on reading what it opened.
 */
module ActiveSessions {
  import opened Common
  import opened Positions

  type Bytes = seq<Byte>

  datatype Session = Session(id: string, pid: nat, cwd: string, openedAt: int)

  /** The JSON codec: `parse` fails on what is not a list of sessions. */
  datatype Codec = Codec(encode: seq<Session> -> Bytes, parse: Bytes -> Option<seq<Session>>)

  ghost predicate RoundTrips(c: Codec) {
    forall sessions :: c.encode(sessions) != [] && c.parse(c.encode(sessions)) == Some(sessions)
  }

  /** An empty or corrupt file is an empty list. */
  function Decoded(c: Codec, bytes: Bytes): seq<Session> {
    if bytes == [] || c.parse(bytes).None? then [] else c.parse(bytes).value
  }

  // -------------------------------------------------------------------- mutations

  datatype Op = Register(session: Session) | Unregister(id: string) | TryUnregister(id: string) | CollectCrashed

  /** An operation as committed; a collection with the liveness it saw at each position. */
  datatype Mutation = Put(session: Session) | Remove(id: string) | Collect(alive: nat -> bool)

  function Without(sessions: seq<Session>, id: string): (r: seq<Session>)
    ensures forall s :: s in r <==> s in sessions && s.id != id
  {
    if sessions == [] then []
    else
      var last := sessions[|sessions| - 1];
      Without(sessions[..|sessions| - 1], id) + (if last.id != id then [last] else [])
  }

  function WithId(sessions: seq<Session>, id: string): seq<Session> {
    if sessions == [] then []
    else
      var last := sessions[|sessions| - 1];
      WithId(sessions[..|sessions| - 1], id) + (if last.id == id then [last] else [])
  }

  /** The sessions whose position was judged `wanted`, in order. */
  function Judged(sessions: seq<Session>, alive: nat -> bool, wanted: bool): seq<Session> {
    if sessions == [] then []
    else
      var n := |sessions| - 1;
      Judged(sessions[..n], alive, wanted) + (if alive(n) == wanted then [sessions[n]] else [])
  }

  function Applied(m: Mutation, sessions: seq<Session>): seq<Session> {
    match m
    case Put(session) => Without(sessions, session.id) + [session]
    case Remove(id) => Without(sessions, id)
    case Collect(alive) => Judged(sessions, alive, true)
  }

  /** What a mutation takes out; a collection returns it. */
  function Taken(m: Mutation, sessions: seq<Session>): seq<Session> {
    match m
    case Put(session) => WithId(sessions, session.id)
    case Remove(id) => WithId(sessions, id)
    case Collect(alive) => Judged(sessions, alive, false)
  }

  ghost function OtherIds(sessions: seq<Session>, id: string): set<nat> {
    set k | 0 <= k < |sessions| && sessions[k].id != id
  }

  ghost function JudgedAs(n: nat, alive: nat -> bool, wanted: bool): set<nat> {
    set k: nat | k < n && alive(k) == wanted
  }

  /**
   What a mutation does to the list, by position: registering drops the sessions with the
   new one's id and puts it last, unregistering drops those with the id, collecting keeps
   the positions judged alive and hands over the others. What stays keeps its order.
   */
  ghost predicate Effect(m: Mutation, before: seq<Session>, after: seq<Session>, taken: seq<Session>) {
    match m
    case Put(session) =>
      && after != [] && after[|after| - 1] == session
      && Picks(before, OtherIds(before, session.id), after[..|after| - 1])
    case Remove(id) => Picks(before, OtherIds(before, id), after)
    case Collect(alive) =>
      && Picks(before, JudgedAs(|before|, alive, true), after)
      && Picks(before, JudgedAs(|before|, alive, false), taken)
  }

  lemma {:induction false} WithoutByPosition(sessions: seq<Session>, id: string)
    ensures Picks(sessions, OtherIds(sessions, id), Without(sessions, id))
  {
    if sessions == [] {
      PicksNone(sessions, OtherIds(sessions, id));
    } else {
      var init, last := sessions[..|sessions| - 1], sessions[|sessions| - 1];
      hide Picks, Without;
      assert init + [last] == sessions;
      WithoutByPosition(init, id);
      WithoutLast(init, last, sessions, id);
      OtherIdsLast(init, last, sessions, id);
      hide OtherIds;
      PicksOneMore(init, last, OtherIds(init, id), Without(init, id), OtherIds(sessions, id));
    }
  }

  lemma {:induction false} OtherIdsLast(init: seq<Session>, last: Session, sessions: seq<Session>, id: string)
    requires init + [last] == sessions
    ensures forall k: nat :: k < |init| ==> (k in OtherIds(sessions, id) <==> k in OtherIds(init, id))
    ensures |init| in OtherIds(sessions, id) <==> last.id != id
  {
    forall k: nat | k < |init| ensures k in OtherIds(sessions, id) <==> k in OtherIds(init, id) {
      assert sessions[k] == init[k];
    }
    assert sessions[|init|] == last;
  }

  lemma {:induction false} JudgedByPosition(sessions: seq<Session>, alive: nat -> bool, wanted: bool)
    ensures Picks(sessions, JudgedAs(|sessions|, alive, wanted), Judged(sessions, alive, wanted))
  {
    if sessions == [] {
      PicksNone(sessions, JudgedAs(|sessions|, alive, wanted));
    } else {
      var init, last := sessions[..|sessions| - 1], sessions[|sessions| - 1];
      hide Picks, Judged;
      JudgedByPosition(init, alive, wanted);
      JudgedLast(init, last, sessions, alive);
      assert init + [last] == sessions;
      PicksOneMore(init, last, JudgedAs(|init|, alive, wanted), Judged(init, alive, wanted),
                   JudgedAs(|sessions|, alive, wanted));
    }
  }

  lemma {:induction false} MutationByPosition(m: Mutation, sessions: seq<Session>)
    ensures Effect(m, sessions, Applied(m, sessions), Taken(m, sessions))
  {
    match m {
      case Put(session) => WithoutByPosition(sessions, session.id);
      case Remove(id) => WithoutByPosition(sessions, id);
      case Collect(alive) =>
        JudgedByPosition(sessions, alive, true);
        JudgedByPosition(sessions, alive, false);
    }
  }

  /** The committed mutations applied one at a time. */
  function Replayed(sessions: seq<Session>, log: seq<Mutation>): seq<Session> {
    if log == [] then sessions else Applied(log[|log| - 1], Replayed(sessions, log[..|log| - 1]))
  }

  predicate DistinctIds(sessions: seq<Session>) {
    forall i, j :: 0 <= i < j < |sessions| ==> sessions[i].id != sessions[j].id
  }

  lemma {:induction false} WithoutKeepsDistinct(sessions: seq<Session>, id: string)
    requires DistinctIds(sessions)
    ensures DistinctIds(Without(sessions, id))
  {
    if sessions != [] {
      var before := sessions[..|sessions| - 1];
      WithoutKeepsDistinct(before, id);
      assert forall s :: s in Without(before, id) ==> s in before;
    }
  }

  lemma {:induction false} JudgedKeepsDistinct(sessions: seq<Session>, alive: nat -> bool, wanted: bool)
    requires DistinctIds(sessions)
    ensures DistinctIds(Judged(sessions, alive, wanted))
    ensures forall s :: s in Judged(sessions, alive, wanted) ==> s in sessions
  {
    if sessions != [] {
      var before := sessions[..|sessions| - 1];
      JudgedKeepsDistinct(before, alive, wanted);
      assert sessions == before + [sessions[|before|]];
      assert forall s :: s in before ==> s.id != sessions[|before|].id;
      assert forall s :: s in Judged(before, alive, wanted) ==> s in before;
    }
  }

  /** No session id ever appears twice in a replay if none did at the start. */
  lemma {:induction false} ReplayKeepsDistinct(sessions: seq<Session>, log: seq<Mutation>)
    requires DistinctIds(sessions)
    ensures DistinctIds(Replayed(sessions, log))
  {
    if log != [] {
      var before := Replayed(sessions, log[..|log| - 1]);
      ReplayKeepsDistinct(sessions, log[..|log| - 1]);
      match log[|log| - 1] {
        case Put(session) => WithoutKeepsDistinct(before, session.id);
        case Remove(id) => WithoutKeepsDistinct(before, id);
        case Collect(alive) => JudgedKeepsDistinct(before, alive, true);
      }
    }
  }

  /** A mutation splits the list: what it keeps and what it takes out, nothing twice. */
  lemma {:induction false} MutationConserves(m: Mutation, sessions: seq<Session>)
    ensures multiset(Applied(m, sessions)) + multiset(Taken(m, sessions))
         == multiset(sessions) + (if m.Put? then multiset{m.session} else multiset{})
  {
    match m {
      case Put(session) => WithoutConserves(sessions, session.id);
      case Remove(id) => WithoutConserves(sessions, id);
      case Collect(alive) => JudgedConserves(sessions, alive);
    }
  }

  /** One more session goes to one side of a split. */
  lemma {:induction false} OneMore(before: seq<Session>, last: Session, sessions: seq<Session>,
                                   a: seq<Session>, b: seq<Session>, a': seq<Session>, b': seq<Session>)
    requires sessions == before + [last] && multiset(a) + multiset(b) == multiset(before)
    requires (a' == a + [last] && b' == b) || (a' == a && b' == b + [last])
    ensures multiset(a') + multiset(b') == multiset(sessions)
  {
    assert multiset(sessions) == multiset(before) + multiset{last};
    if b' == b {
      assert multiset(a + [last]) == multiset(a) + multiset{last};
    } else {
      assert multiset(b + [last]) == multiset(b) + multiset{last};
    }
  }

  lemma {:induction false} WithoutConserves(sessions: seq<Session>, id: string)
    ensures multiset(Without(sessions, id)) + multiset(WithId(sessions, id)) == multiset(sessions)
  {
    hide Without, WithId;
    if sessions == [] {
      NothingWithout(id);
    } else {
      var before, last := sessions[..|sessions| - 1], sessions[|sessions| - 1];
      WithoutConserves(before, id);
      WithoutLast(before, last, sessions, id);
      OneMore(before, last, sessions, Without(before, id), WithId(before, id),
              Without(sessions, id), WithId(sessions, id));
    }
  }

  lemma {:induction false} NothingWithout(id: string)
    ensures Without([], id) == [] && WithId([], id) == []
  {}

  lemma {:induction false} WithoutLast(before: seq<Session>, last: Session, sessions: seq<Session>, id: string)
    requires sessions == before + [last]
    ensures Without(sessions, id) == if last.id != id then Without(before, id) + [last] else Without(before, id)
    ensures WithId(sessions, id) == if last.id == id then WithId(before, id) + [last] else WithId(before, id)
  {
    assert sessions[..|before|] == before;
  }

  lemma {:induction false} JudgedConserves(sessions: seq<Session>, alive: nat -> bool)
    ensures multiset(Judged(sessions, alive, true)) + multiset(Judged(sessions, alive, false)) == multiset(sessions)
  {
    hide Judged;
    if sessions == [] {
      NothingJudged(alive);
    } else {
      var before, last := sessions[..|sessions| - 1], sessions[|sessions| - 1];
      JudgedConserves(before, alive);
      JudgedLast(before, last, sessions, alive);
      OneMore(before, last, sessions, Judged(before, alive, true), Judged(before, alive, false),
              Judged(sessions, alive, true), Judged(sessions, alive, false));
    }
  }

  lemma {:induction false} NothingJudged(alive: nat -> bool)
    ensures Judged([], alive, true) == [] && Judged([], alive, false) == []
  {}

  lemma {:induction false} JudgedLast(before: seq<Session>, last: Session, sessions: seq<Session>, alive: nat -> bool)
    requires sessions == before + [last]
    ensures forall wanted ::
              Judged(sessions, alive, wanted)
              == if alive(|before|) == wanted then Judged(before, alive, wanted) + [last]
                 else Judged(before, alive, wanted)
  {
    assert sessions[..|before|] == before;
  }

  function TakenOver(sessions: seq<Session>, log: seq<Mutation>): multiset<Session> {
    if log == [] then multiset{}
    else
      var before := log[..|log| - 1];
      TakenOver(sessions, before) + multiset(Taken(log[|log| - 1], Replayed(sessions, before)))
  }

  function PutOver(log: seq<Mutation>): multiset<Session> {
    if log == [] then multiset{}
    else PutOver(log[..|log| - 1]) + (if log[|log| - 1].Put? then multiset{log[|log| - 1].session} else multiset{})
  }

  lemma {:induction false} Balance(
        now: multiset<Session>, taken: multiset<Session>, start: multiset<Session>, put: multiset<Session>,
                                   now': multiset<Session>, more: multiset<Session>, newPut: multiset<Session>)
    requires now + taken == start + put && now' + more == now + newPut
    ensures now' + (taken + more) == start + (put + newPut)
  {
    forall s: Session ensures (now' + (taken + more))[s] == (start + (put + newPut))[s] {
      assert (now + taken)[s] == (start + put)[s] && (now' + more)[s] == (now + newPut)[s];
    }
  }

  /** Over any log, every session put in is still there or was taken out once; so a crash is reported at most once. */
  lemma {:induction false} ReplayConserves(sessions: seq<Session>, log: seq<Mutation>)
    ensures multiset(Replayed(sessions, log)) + TakenOver(sessions, log) == multiset(sessions) + PutOver(log)
  {
    if log != [] {
      hide Applied, Taken;
      var before, m := log[..|log| - 1], log[|log| - 1];
      var now := Replayed(sessions, before);
      ReplayConserves(sessions, before);
      MutationConserves(m, now);
      var put := if m.Put? then multiset{m.session} else multiset{};
      Balance(multiset(now), TakenOver(sessions, before), multiset(sessions), PutOver(before),
              multiset(Applied(m, now)), multiset(Taken(m, now)), put);
    }
  }

  /** `retain` in place: sessions with another id stay, in order. */
  method Retain(sessions: seq<Session>, id: string) returns (kept: seq<Session>)
    ensures kept == Without(sessions, id)
  {
    kept := [];
    for i := 0 to |sessions|
      invariant kept == Without(sessions[..i], id)
    {
      assert sessions[..i + 1][..i] == sessions[..i];
      if sessions[i].id != id {
        kept := kept + [sessions[i]];
      }
    }
    assert sessions[..|sessions|] == sessions;
  }

  /** `drain` and `partition` by liveness. */
  method Partition(sessions: seq<Session>, alive: nat -> bool) returns (live: seq<Session>, dead: seq<Session>)
    ensures live == Judged(sessions, alive, true) && dead == Judged(sessions, alive, false)
  {
    live, dead := [], [];
    for i := 0 to |sessions|
      invariant live == Judged(sessions[..i], alive, true) && dead == Judged(sessions[..i], alive, false)
    {
      assert sessions[..i + 1][..i] == sessions[..i];
      if alive(i) {
        live := live + [sessions[i]];
      } else {
        dead := dead + [sessions[i]];
      }
    }
    assert sessions[..|sessions|] == sessions;
  }

  method Mutate(m: Mutation, sessions: seq<Session>) returns (mutated: seq<Session>, taken: seq<Session>)
    ensures mutated == Applied(m, sessions) && Effect(m, sessions, mutated, taken)
    ensures m.Collect? ==> taken == Taken(m, sessions)
  {
    MutationByPosition(m, sessions);
    taken := [];
    match m {
      case Put(session) =>
        mutated := Retain(sessions, session.id);
        mutated := mutated + [session];
      case Remove(id) =>
        mutated := Retain(sessions, id);
      case Collect(alive) =>
        mutated, taken := Partition(sessions, alive);
    }
  }

  // ------------------------------------------------------------------------ files

  /** Inodes with their bytes, and what the data and temporary names point to. */
  datatype Files = Files(inodes: map<nat, Bytes>, data: Option<nat>, tmp: Option<nat>)

  predicate FilesOk(f: Files) {
    && (f.data.Some? ==> f.data.value in f.inodes)
    && (f.tmp.Some? ==> f.tmp.value in f.inodes)
    && (f.data.Some? ==> f.data != f.tmp)
  }

  function Read(f: Files, inode: Option<nat>): Bytes {
    if inode.Some? && inode.value in f.inodes then f.inodes[inode.value] else []
  }

  function Stored(c: Codec, f: Files): seq<Session> {
    Decoded(c, Read(f, f.data))
  }

  /** Opening the temporary file empties it, or creates it as the fresh inode. */
  function OpenTmp(f: Files, freshInode: nat): Files {
    var inode := if f.tmp.Some? then f.tmp.value else freshInode;
    f.(tmp := Some(inode), inodes := f.inodes[inode := []])
  }

  function Append(f: Files, inode: nat, bytes: Bytes): Files {
    f.(inodes := f.inodes[inode := Read(f, Some(inode)) + bytes])
  }

  /** The rename: the data name now points where the temporary name did. */
  function Rename(f: Files): Files {
    f.(data := f.tmp, tmp := None)
  }

  /** Open readers see what they opened: only the inode under the temporary name is ever rewritten. */
  ghost predicate ReadersUndisturbed(f: Files, f': Files) {
    forall i :: i in f.inodes && f.tmp != Some(i) ==> i in f'.inodes && f'.inodes[i] == f.inodes[i] && f'.tmp != Some(i)
  }

  /** What a read-modify-write under the lock leaves: the mutation applied to what was stored, or what was stored. */
  ghost predicate MutationDone(c: Codec, m: Mutation, f: Files, f': Files, ok: bool) {
    && FilesOk(f') && ReadersUndisturbed(f, f')
    && Stored(c, f') == if ok then Applied(m, Stored(c, f)) else Stored(c, f)
  }

  /** What an operation does to the list, with the liveness it was told by position. */
  ghost predicate OpEffect(op: Op, alive: nat -> bool, before: seq<Session>, after: seq<Session>, taken: seq<Session>) {
    && (op.Register? ==> Effect(Put(op.session), before, after, taken))
    && (op.Unregister? || op.TryUnregister? ==> Effect(Remove(op.id), before, after, taken))
    && (op.CollectCrashed? ==> Effect(Collect(alive), before, after, taken))
  }

  /** The same with some liveness. */
  ghost predicate HasEffect(op: Op, before: seq<Session>, after: seq<Session>, taken: seq<Session>) {
    exists alive: nat -> bool :: OpEffect(op, alive, before, after, taken)
  }

  /** One call's read-modify-write under the lock, with nobody else inside it. */
  class Root {
    var files: Files
    const codec: Codec
    /** Whether reads, writes and renames may fail. */
    const faulty: bool

    constructor (files: Files, codec: Codec, faulty: bool)
      ensures this.files == files && this.codec == codec && this.faulty == faulty
    {
      this.files, this.codec, this.faulty := files, codec, faulty;
    }

    method ReadDataFile() returns (sessions: Option<seq<Session>>)
      ensures sessions.Some? ==> sessions.value == Stored(codec, files)
      ensures sessions.Some? && (files.data.None? || codec.parse(Read(files, files.data)).None?) ==>
                sessions.value == []
      ensures sessions.None? ==> faulty
    {
      var fault := Fails(faulty);
      if fault {
        return None;
      }
      var bytes := Read(files, files.data);
      if bytes == [] {
        return Some([]);
      }
      var parsed := codec.parse(bytes);
      return if parsed.None? then Some([]) else parsed;
    }

    /** The data file is replaced whole or not at all. `freshInode` is what a new file would get. */
    method WriteDataFileAtomic(sessions: seq<Session>, freshInode: nat) returns (ok: bool)
      requires freshInode !in files.inodes && FilesOk(files) && RoundTrips(codec)
      modifies this
      ensures FilesOk(files) && ReadersUndisturbed(old(files), files)
      ensures !ok ==> faulty
      ensures ok ==> Stored(codec, files) == sessions && files.tmp == None
      ensures !ok ==> files.data == old(files.data) && Stored(codec, files) == Stored(codec, old(files))
    {
      var bytes := codec.encode(sessions);
      ghost var before := files;
      files := OpenTmp(files, freshInode);
      var inode, written := files.tmp.value, 0;
      while written < |bytes|
        invariant 0 <= written <= |bytes| && FilesOk(files) && ReadersUndisturbed(before, files)
        invariant files.tmp == Some(inode) && Read(files, files.tmp) == bytes[..written]
        invariant files.data == before.data && Stored(codec, files) == Stored(codec, before)
      {
        var fault := Fails(faulty);
        if fault {
          return false;
        }
        var k: nat :| 0 < k <= |bytes| - written;
        files := Append(files, inode, bytes[written..written + k]);
        written := written + k;
      }
      var fault := Fails(faulty);
      if fault {
        if * {
          files := files.(tmp := None);
        }
        return false;
      }
      files := Rename(files);
      assert bytes[..written] == bytes;
      return true;
    }

    method LockedMutate(m: Mutation, freshInode: nat) returns (ok: bool, taken: seq<Session>)
      requires freshInode !in files.inodes && FilesOk(files) && RoundTrips(codec)
      modifies this
      ensures !ok ==> faulty
      ensures MutationDone(codec, m, old(files), files, ok)
      ensures ok ==> Effect(m, Stored(codec, old(files)), Stored(codec, files), taken)
    {
      var sessions := ReadDataFile();
      if sessions.None? {
        return false, [];
      }
      var mutated;
      mutated, taken := Mutate(m, sessions.value);
      ok := WriteDataFileAtomic(mutated, freshInode);
    }
  }

  // -------------------------------------------------------------- the state machine

  /** What a call returns: what its mutation took out, or an error or contention for the lock. */
  datatype Outcome = Done(taken: seq<Session>) | NotDone

  /** Where a process is in its call; `call` numbers the calls of all processes. */
  datatype Proc =
    | Idle
    | WantsLock(call: nat)
    | Locked(call: nat)
    | Opened(call: nat, inode: Option<nat>)
    | Mutated(call: nat, m: Mutation, sessions: seq<Session>, taken: seq<Session>)
    | Writing(call: nat, m: Mutation, sessions: seq<Session>, taken: seq<Session>, tmp: nat, written: nat)
    | Leaving(call: nat, outcome: Outcome)
    | Listing(inode: Option<nat>, since: nat)

  predicate InsideLock(p: Proc) {
    p.Locked? || p.Opened? || p.Mutated? || p.Writing? || p.Leaving?
  }

  /** `calls` are the operations called so far; `committers` says which call committed each entry of the log. */
  datatype State = State(
    files: Files, lock: Option<nat>, procs: seq<Proc>, calls: seq<Op>, log: seq<Mutation>, committers: seq<nat>)

  datatype Event =
    | Call(op: Op)
    | GiveUp
    | TakeLock
    | WouldBlock
    | OpenData
    | ReadData(alive: nat -> bool)
    | OpenTmpFile(freshInode: nat)
    | WriteTmp(k: nat)
    | RenameTmp
    | FailRename(removed: bool)
    | Fail
    | Unlock
    | Crash
    | ListOpen
    | ListRead(result: seq<Session>)

  function MutationOf(op: Op, alive: nat -> bool): Mutation {
    match op
    case Register(session) => Put(session)
    case Unregister(id) => Remove(id)
    case TryUnregister(id) => Remove(id)
    case CollectCrashed => Collect(alive)
  }

  predicate Enabled(c: Codec, s: State, p: nat, e: Event) {
    p < |s.procs| &&
    match e
    case Call(_) => s.procs[p].Idle?
    case GiveUp => s.procs[p].WantsLock? || s.procs[p].Listing?
    case TakeLock => s.procs[p].WantsLock? && s.lock.None?
    case WouldBlock =>
      s.procs[p].WantsLock? && s.procs[p].call < |s.calls| && s.calls[s.procs[p].call].TryUnregister? && s.lock.Some?
    case OpenData => s.procs[p].Locked?
    case ReadData(_) => s.procs[p].Opened? && s.procs[p].call < |s.calls|
    case OpenTmpFile(freshInode) => s.procs[p].Mutated? && freshInode !in s.files.inodes
    case WriteTmp(k) => s.procs[p].Writing? && s.procs[p].written + k <= |c.encode(s.procs[p].sessions)|
    case RenameTmp => s.procs[p].Writing? && s.procs[p].written == |c.encode(s.procs[p].sessions)| && s.files.tmp.Some?
    case FailRename(_) => s.procs[p].Writing? && s.procs[p].written == |c.encode(s.procs[p].sessions)|
    case Fail => InsideLock(s.procs[p]) && !s.procs[p].Leaving?
    case Unlock => s.procs[p].Leaving?
    case Crash => true
    case ListOpen => s.procs[p].Idle?
    case ListRead(result) => s.procs[p].Listing? && result == Decoded(c, Read(s.files, s.procs[p].inode))
  }

  function Next(c: Codec, s: State, p: nat, e: Event): State
    requires Enabled(c, s, p, e)
  {
    var q := s.procs[p];
    match e
    case Call(op) => s.(calls := s.calls + [op], procs := s.procs[p := WantsLock(|s.calls|)])
    case GiveUp => s.(procs := s.procs[p := Idle])
    case TakeLock => s.(lock := Some(p), procs := s.procs[p := Locked(q.call)])
    case WouldBlock => s.(procs := s.procs[p := Idle])
    case OpenData => s.(procs := s.procs[p := Opened(q.call, s.files.data)])
    case ReadData(alive) =>
      var m, sessions := MutationOf(s.calls[q.call], alive), Decoded(c, Read(s.files, q.inode));
      s.(procs := s.procs[p := Mutated(q.call, m, Applied(m, sessions), Taken(m, sessions))])
    case OpenTmpFile(freshInode) =>
      var files := OpenTmp(s.files, freshInode);
      s.(files := files, procs := s.procs[p := Writing(q.call, q.m, q.sessions, q.taken, files.tmp.value, 0)])
    case WriteTmp(k) =>
      var bytes := c.encode(q.sessions)[q.written..q.written + k];
      s.(files := Append(s.files, q.tmp, bytes), procs := s.procs[p := q.(written := q.written + k)])
    case RenameTmp =>
      s.(files := Rename(s.files), procs := s.procs[p := Leaving(q.call, Done(q.taken))],
         log := s.log + [q.m], committers := s.committers + [q.call])
    case FailRename(removed) =>
      s.(files := if removed then s.files.(tmp := None) else s.files, procs := s.procs[p := Leaving(q.call, NotDone)])
    case Fail => s.(procs := s.procs[p := Leaving(q.call, NotDone)])
    case Unlock => s.(lock := None, procs := s.procs[p := Idle])
    case Crash => s.(lock := if s.lock == Some(p) then None else s.lock, procs := s.procs[p := Idle])
    case ListOpen => s.(procs := s.procs[p := Listing(s.files.data, |s.log|)])
    case ListRead(_) => s.(procs := s.procs[p := Idle])
  }

  /** The call that `p` returns from by event `e`, and with what. */
  function Returned(p: Proc, e: Event): Option<(nat, Outcome)> {
    if p.Leaving? && e.Unlock? then Some((p.call, p.outcome))
    else if p.WantsLock? && (e.GiveUp? || e.WouldBlock?) then Some((p.call, NotDone))
    else None
  }

  // -------------------------------------------------------------------- invariant

  /** What is known of one process. */
  ghost predicate ProcOk(c: Codec, start: seq<Session>, f: Files, log: seq<Mutation>, p: Proc) {
    match p
    case Opened(_, inode) => inode == f.data
    case Mutated(_, m, sessions, taken) =>
      sessions == Applied(m, Replayed(start, log)) && taken == Taken(m, Replayed(start, log))
    case Writing(_, m, sessions, taken, tmp, written) =>
      && sessions == Applied(m, Replayed(start, log)) && taken == Taken(m, Replayed(start, log)) && f.tmp == Some(tmp)
      && written <= |c.encode(sessions)| && Read(f, f.tmp) == c.encode(sessions)[..written]
    case Listing(inode, since) =>
      && since <= |log| && Decoded(c, Read(f, inode)) == Replayed(start, log[..since])
      && (inode.Some? ==> inode.value in f.inodes && inode != f.tmp)
    case _ => true
  }

  ghost predicate Inv(c: Codec, start: seq<Session>, s: State) {
    && FilesOk(s.files)
    && Stored(c, s.files) == Replayed(start, s.log)
    && (forall p :: 0 <= p < |s.procs| ==> (InsideLock(s.procs[p]) <==> s.lock == Some(p)))
    && (s.lock.Some? ==> s.lock.value < |s.procs|)
    && (forall p :: 0 <= p < |s.procs| ==> ProcOk(c, start, s.files, s.log, s.procs[p]))
  }

  /** Everybody idle, the lock free; the files as some earlier run left them. */
  predicate Initial(s: State) {
    && FilesOk(s.files) && s.lock.None? && s.calls == [] && s.log == [] && s.committers == []
    && forall p :: 0 <= p < |s.procs| ==> s.procs[p].Idle?
  }

  ghost predicate SameToReaders(f: Files, f': Files) {
    f'.data == f.data && ReadersUndisturbed(f, f')
  }

  /** A step of `p` in the temporary file does not disturb what another process knows. */
  lemma {:induction false} OthersUndisturbed(c: Codec, start: seq<Session>, f: Files, f': Files, log: seq<Mutation>,
                                             q: Proc)
    requires FilesOk(f) && ProcOk(c, start, f, log, q) && !InsideLock(q)
    requires SameToReaders(f, f')
    ensures ProcOk(c, start, f', log, q)
  {}

  lemma {:induction false} StepKeepsInv(c: Codec, start: seq<Session>, s: State, p: nat, e: Event)
    requires RoundTrips(c) && Inv(c, start, s) && Enabled(c, s, p, e)
    ensures Inv(c, start, Next(c, s, p, e))
  {
    hide Applied, Taken, Replayed, Decoded, RoundTrips;
    match e {
      case OpenTmpFile(freshInode) => OpenTmpKeeps(c, start, s, p, freshInode);
      case WriteTmp(k) => WriteTmpKeeps(c, start, s, p, k);
      case FailRename(removed) => FailRenameKeeps(c, start, s, p, removed);
      case RenameTmp => CommitKeeps(c, start, s, p);
      case ListOpen => assert s.log[..|s.log|] == s.log;
      case _ =>
    }
  }

  /** A step by `p`, inside the lock, that leaves all but the temporary file alone. */
  lemma {:induction false} InsideStepKeeps(c: Codec, start: seq<Session>, s: State, p: nat, files: Files, x: Proc,
                                           s': State)
    requires Inv(c, start, s) && p < |s.procs| && InsideLock(s.procs[p]) && InsideLock(x)
    requires s' == s.(files := files, procs := s.procs[p := x])
    requires FilesOk(files) && SameToReaders(s.files, files) && Stored(c, files) == Stored(c, s.files)
    requires ProcOk(c, start, files, s.log, x)
    ensures Inv(c, start, s')
  {
    hide ProcOk, SameToReaders, FilesOk, Stored, Replayed;
    forall q | 0 <= q < |s.procs| && q != p ensures ProcOk(c, start, files, s.log, s.procs[q]) {
      OthersUndisturbed(c, start, s.files, files, s.log, s.procs[q]);
    }
  }

  lemma {:induction false} OpenTmpKeeps(c: Codec, start: seq<Session>, s: State, p: nat, freshInode: nat)
    requires Inv(c, start, s) && Enabled(c, s, p, OpenTmpFile(freshInode))
    ensures Inv(c, start, Next(c, s, p, OpenTmpFile(freshInode)))
  {
    hide Applied, Taken, Replayed, Decoded;
    var s' := Next(c, s, p, OpenTmpFile(freshInode));
    assert ProcOk(c, start, s.files, s.log, s.procs[p]);
    assert c.encode(s.procs[p].sessions)[..0] == [];
    InsideStepKeeps(c, start, s, p, s'.files, s'.procs[p], s');
  }

  lemma {:induction false} WriteTmpKeeps(c: Codec, start: seq<Session>, s: State, p: nat, k: nat)
    requires Inv(c, start, s) && Enabled(c, s, p, WriteTmp(k))
    ensures Inv(c, start, Next(c, s, p, WriteTmp(k)))
  {
    hide Applied, Taken, Replayed, Decoded;
    var s', w := Next(c, s, p, WriteTmp(k)), s.procs[p];
    var bytes := c.encode(w.sessions);
    assert ProcOk(c, start, s.files, s.log, w);
    assert bytes[..w.written] + bytes[w.written..w.written + k] == bytes[..w.written + k];
    InsideStepKeeps(c, start, s, p, s'.files, s'.procs[p], s');
  }

  lemma {:induction false} FailRenameKeeps(c: Codec, start: seq<Session>, s: State, p: nat, removed: bool)
    requires Inv(c, start, s) && Enabled(c, s, p, FailRename(removed))
    ensures Inv(c, start, Next(c, s, p, FailRename(removed)))
  {
    hide Applied, Taken, Replayed, Decoded;
    var s' := Next(c, s, p, FailRename(removed));
    InsideStepKeeps(c, start, s, p, s'.files, s'.procs[p], s');
  }

  lemma {:induction false} CommitKeeps(c: Codec, start: seq<Session>, s: State, p: nat)
    requires RoundTrips(c) && Inv(c, start, s) && Enabled(c, s, p, RenameTmp)
    ensures Inv(c, start, Next(c, s, p, RenameTmp))
  {
    hide Applied, Taken, Replayed, Decoded, RoundTrips;
    var s', w := Next(c, s, p, RenameTmp), s.procs[p];
    ReplayedOneMore(start, s.log, w.m);
    assert c.encode(w.sessions)[..w.written] == c.encode(w.sessions);
    EncodedIsDecoded(c, w.sessions);
    forall q | 0 <= q < |s.procs| && q != p ensures ProcOk(c, start, s'.files, s'.log, s.procs[q]) {
      ReaderKeepsItsFile(c, start, s.files, s.log, w.m, s.procs[q]);
    }
  }

  lemma {:induction false} ReplayedOneMore(start: seq<Session>, log: seq<Mutation>, m: Mutation)
    ensures Replayed(start, log + [m]) == Applied(m, Replayed(start, log))
  {
    assert (log + [m])[..|log|] == log;
  }

  lemma {:induction false} EncodedIsDecoded(c: Codec, sessions: seq<Session>)
    requires RoundTrips(c)
    ensures Decoded(c, c.encode(sessions)) == sessions
  {}

  /** A reader outside the lock goes on with the file it opened. */
  lemma {:induction false} ReaderKeepsItsFile(c: Codec, start: seq<Session>, f: Files, log: seq<Mutation>,
                                              m: Mutation, q: Proc)
    requires FilesOk(f) && ProcOk(c, start, f, log, q) && !InsideLock(q)
    ensures ProcOk(c, start, Rename(f), log + [m], q)
  {
    hide Applied, Taken, Replayed, Decoded;
    if q.Listing? {
      assert (log + [m])[..q.since] == log[..q.since];
    }
  }

  ghost predicate IsRun(c: Codec, trace: seq<State>, who: seq<nat>, events: seq<Event>) {
    && |trace| == |events| + 1 && |who| == |events| && Initial(trace[0])
    && forall k :: 0 <= k < |events| ==>
       Enabled(c, trace[k], who[k], events[k]) && trace[k + 1] == Next(c, trace[k], who[k], events[k])
  }

  /**
   In every state of every run the data file holds exactly the committed mutations,
   applied one at a time in commit order, whoever crashed and wherever.
   */
  lemma {:induction false} DataIsCommittedLog(c: Codec, trace: seq<State>, who: seq<nat>, events: seq<Event>, k: nat)
    requires RoundTrips(c) && IsRun(c, trace, who, events) && k < |trace|
    ensures Inv(c, Stored(c, trace[0].files), trace[k])
    ensures Stored(c, trace[k].files) == Replayed(Stored(c, trace[0].files), trace[k].log)
  {
    hide RoundTrips, Enabled, Next;
    if k > 0 {
      DataIsCommittedLog(c, trace, who, events, k - 1);
      StepKeepsInv(c, Stored(c, trace[0].files), trace[k - 1], who[k - 1], events[k - 1]);
    }
  }

  /** If no session id appears twice at the start, none ever does. */
  lemma {:induction false} IdsStayDistinct(c: Codec, trace: seq<State>, who: seq<nat>, events: seq<Event>, k: nat)
    requires RoundTrips(c) && IsRun(c, trace, who, events) && k < |trace|
    requires DistinctIds(Stored(c, trace[0].files))
    ensures DistinctIds(Stored(c, trace[k].files))
  {
    DataIsCommittedLog(c, trace, who, events, k);
    ReplayKeepsDistinct(Stored(c, trace[0].files), trace[k].log);
  }

  /**
   A reader without the lock sees one committed state: the one current when it opened
   the file, never a torn or half-written one, however many commits happen meanwhile.
   */
  lemma {:induction false} ListSeesCommittedState(c: Codec, trace: seq<State>, who: seq<nat>, events: seq<Event>,
                                                  k: nat)
    requires RoundTrips(c) && IsRun(c, trace, who, events) && k < |events| && events[k].ListRead?
    ensures var listing := trace[k].procs[who[k]];
            && listing.Listing? && listing.since <= |trace[k].log|
            && events[k].result == Replayed(Stored(c, trace[0].files), trace[k].log[..listing.since])
  {
    DataIsCommittedLog(c, trace, who, events, k);
  }

  /** The lock is held by at most one process, one that is inside its call; a crash frees it. */
  lemma {:induction false} OneInsideLock(c: Codec, trace: seq<State>, who: seq<nat>, events: seq<Event>, k: nat,
                                         p: nat, q: nat)
    requires RoundTrips(c) && IsRun(c, trace, who, events) && k < |trace|
    requires p < |trace[k].procs| && q < |trace[k].procs|
    ensures InsideLock(trace[k].procs[p]) && InsideLock(trace[k].procs[q]) ==> p == q
    ensures trace[k].lock.Some? ==>
            trace[k].lock.value < |trace[k].procs| && InsideLock(trace[k].procs[trace[k].lock.value])
    ensures trace[k].lock.None? && trace[k].procs[p].WantsLock? ==> Enabled(c, trace[k], p, TakeLock)
  {
    DataIsCommittedLog(c, trace, who, events, k);
  }

  // ------------------------------------------------------- what a call returns

  predicate IsMutationOf(op: Op, m: Mutation) {
    match op
    case Register(session) => m == Put(session)
    case Unregister(id) => m == Remove(id)
    case TryUnregister(id) => m == Remove(id)
    case CollectCrashed => m.Collect?
  }

  function CallOf(p: Proc): Option<nat> {
    if p.Idle? || p.Listing? then None else Some(p.call)
  }

  predicate HasCommitted(p: Proc) {
    p.Leaving? && p.outcome.Done?
  }

  /** Entry `n` of the log is what `call` committed, and `taken` is what that took out. */
  ghost predicate CommittedAt(start: seq<Session>, s: State, call: nat, taken: seq<Session>, n: nat) {
    && n < |s.log| && n < |s.committers| && s.committers[n] == call && call < |s.calls|
    && IsMutationOf(s.calls[call], s.log[n]) && taken == Taken(s.log[n], Replayed(start, s.log[..n]))
  }

  ghost predicate CallOk(start: seq<Session>, s: State, p: Proc) {
    CallOf(p).Some? ==>
      && p.call < |s.calls|
      && (if HasCommitted(p) then exists n: nat :: CommittedAt(start, s, p.call, p.outcome.taken, n)
          else p.call !in s.committers)
      && (p.Mutated? || p.Writing? ==> IsMutationOf(s.calls[p.call], p.m))
  }

  /** Calls and log agree: one entry at most for a call, and none before its commit. */
  ghost predicate CallsOk(start: seq<Session>, s: State) {
    && |s.committers| == |s.log|
    && (forall n :: 0 <= n < |s.committers| ==> s.committers[n] < |s.calls|)
    && (forall i, j :: 0 <= i < j < |s.committers| ==> s.committers[i] != s.committers[j])
    && (forall p :: 0 <= p < |s.procs| ==> CallOk(start, s, s.procs[p]))
    && (forall p, q :: 0 <= p < q < |s.procs| && CallOf(s.procs[p]).Some? ==> CallOf(s.procs[p]) != CallOf(s.procs[q]))
  }

  lemma {:induction false} StepKeepsCalls(c: Codec, start: seq<Session>, s: State, p: nat, e: Event)
    requires Inv(c, start, s) && CallsOk(start, s) && Enabled(c, s, p, e)
    ensures CallsOk(start, Next(c, s, p, e))
  {
    hide Applied, Taken, Replayed, Decoded, CommittedAt, OpenTmp, Append, Rename, Inv, CallsOk;
    if e.RenameTmp? {
      CommitKeepsCalls(c, start, s, p);
    } else {
      var s' := Next(c, s, p, e);
      CallOfOne(start, s, p);
      assert s'.procs == s.procs[p := s'.procs[p]];
      OneProcMoves(start, s, s', p, s'.procs[p]);
    }
  }

  lemma {:induction false} CallOfOne(start: seq<Session>, s: State, p: nat)
    requires CallsOk(start, s) && p < |s.procs|
    ensures CallOk(start, s, s.procs[p]) && forall n :: n in s.committers ==> n < |s.calls|
  {
    hide CallOk;
  }

  /** `p` moves on in its call, or starts the next one, without a commit. */
  lemma {:induction false} OneProcMoves(start: seq<Session>, s: State, s': State, p: nat, x: Proc)
    requires CallsOk(start, s) && p < |s.procs| && s'.procs == s.procs[p := x]
    requires s'.log == s.log && s'.committers == s.committers && s.calls <= s'.calls
    requires CallOf(x).None? || CallOf(x) == CallOf(s.procs[p]) || CallOf(x) == Some(|s.calls|)
    requires CallOk(start, s', x)
    ensures CallsOk(start, s')
  {
    hide CommittedAt, IsMutationOf;
    forall q | 0 <= q < |s.procs| && q != p ensures CallOk(start, s', s.procs[q]) {
      assert CallOk(start, s, s.procs[q]);
      if CallOf(s.procs[q]).Some? {
        CallStaysOk(start, s, s', s.procs[q]);
      }
    }
    hide CallOk, HasCommitted;
    forall q | 0 <= q < |s.procs| && CallOf(s.procs[q]).Some? ensures CallOf(s.procs[q]) != Some(|s.calls|) {
      CallIsOld(start, s, q);
    }
  }

  lemma {:induction false} CallIsOld(start: seq<Session>, s: State, q: nat)
    requires CallsOk(start, s) && q < |s.procs|
    ensures CallOf(s.procs[q]) != Some(|s.calls|)
  {
    assert CallOk(start, s, s.procs[q]);
  }

  /** More calls and more log leave the standing of a call as it is. */
  lemma {:induction false} CallStaysOk(start: seq<Session>, s: State, s': State, p: Proc)
    requires CallOk(start, s, p) && s.calls <= s'.calls && s.log <= s'.log && s.committers <= s'.committers
    requires !HasCommitted(p) && CallOf(p).Some? ==> p.call !in s'.committers
    ensures CallOk(start, s', p)
  {
    hide Taken, Replayed, IsMutationOf;
    if HasCommitted(p) {
      var n: nat :| CommittedAt(start, s, p.call, p.outcome.taken, n);
      assert s'.log[..n] == s.log[..n];
      assert CommittedAt(start, s', p.call, p.outcome.taken, n);
    }
  }

  lemma {:induction false} CommitKeepsCalls(c: Codec, start: seq<Session>, s: State, p: nat)
    requires Inv(c, start, s) && CallsOk(start, s) && Enabled(c, s, p, RenameTmp)
    ensures CallsOk(start, Next(c, s, p, RenameTmp))
  {
    hide Applied, Taken, Replayed, Decoded, Rename, IsMutationOf;
    var s', w := Next(c, s, p, RenameTmp), s.procs[p];
    assert s'.log[..|s.log|] == s.log;
    assert CommittedAt(start, s', w.call, w.taken, |s.log|);
    forall q | 0 <= q < |s.procs| && q != p ensures CallOk(start, s', s.procs[q]) {
      CallStaysOk(start, s, s', s.procs[q]);
    }
  }

  lemma {:induction false} CallsStayOk(c: Codec, trace: seq<State>, who: seq<nat>, events: seq<Event>, k: nat)
    requires RoundTrips(c) && IsRun(c, trace, who, events) && k < |trace|
    ensures CallsOk(Stored(c, trace[0].files), trace[k])
  {
    hide RoundTrips, Enabled, Next, Inv, CallsOk;
    if k == 0 {
      NoCallsYet(Stored(c, trace[0].files), trace[0]);
    } else {
      CallsStayOk(c, trace, who, events, k - 1);
      DataIsCommittedLog(c, trace, who, events, k - 1);
      StepKeepsCalls(c, Stored(c, trace[0].files), trace[k - 1], who[k - 1], events[k - 1]);
    }
  }

  lemma {:induction false} NoCallsYet(start: seq<Session>, s: State)
    requires Initial(s)
    ensures CallsOk(start, s)
  {}

  /** What is called, and what is committed, stays so. */
  lemma {:induction false} HistoryGrows(c: Codec, trace: seq<State>, who: seq<nat>, events: seq<Event>, i: nat, j: nat)
    requires IsRun(c, trace, who, events) && i <= j < |trace|
    ensures trace[i].calls <= trace[j].calls && trace[i].log <= trace[j].log
            && trace[i].committers <= trace[j].committers
    decreases j - i
  {
    if i < j {
      HistoryGrows(c, trace, who, events, i, j - 1);
    }
  }

  /** Nobody is in `call`. */
  ghost predicate Over(s: State, call: nat) {
    call < |s.calls| && forall p :: 0 <= p < |s.procs| ==> CallOf(s.procs[p]) != Some(call)
  }

  /** A call that is over commits nothing more. */
  lemma {:induction false} OverStaysOver(c: Codec, trace: seq<State>, who: seq<nat>, events: seq<Event>, i: nat,
                                         j: nat, call: nat)
    requires IsRun(c, trace, who, events) && i <= j < |trace| && Over(trace[i], call)
    ensures Over(trace[j], call) && (call in trace[j].committers <==> call in trace[i].committers)
    decreases j - i
  {
    hide Taken, Applied, Decoded, Read, OpenTmp, Append, Rename;
    if i < j {
      OverStaysOver(c, trace, who, events, i, j - 1, call);
    }
  }

  /** Entry `n` of the log does to the list what the operation of `call` promises, and takes out `taken`. */
  ghost predicate EffectAt(start: seq<Session>, s: State, call: nat, taken: seq<Session>, n: nat) {
    && call < |s.calls| && n < |s.log|
    && HasEffect(s.calls[call], Replayed(start, s.log[..n]), Replayed(start, s.log[..n + 1]), taken)
  }

  /**
   In `s` the log has one entry of `call`, made between `called` and `returned`, and it does
   what the operation promises.
   */
  ghost predicate CommittedOnce(start: seq<Session>, called: State, returned: State, s: State, call: nat,
                                taken: seq<Session>) {
    exists n: nat ::
      && CommittedAt(start, s, call, taken, n) && n < |returned.log|
      && EffectAt(start, s, call, taken, n)
      && (|called.calls| <= call ==> |called.log| <= n)
      && forall m :: 0 <= m < |s.committers| && s.committers[m] == call ==> m == n
  }

  /**
   A call that returns success has its own mutation in the log, once, committed between
   the call and the return, and returns what that mutation took out; a call that returns
   an error or contention has none, then or later.
   */
  lemma {:induction false} ReturnsWhatItCommitted(c: Codec, trace: seq<State>, who: seq<nat>, events: seq<Event>,
                                                  k: nat, i: nat, j: nat)
    requires RoundTrips(c) && IsRun(c, trace, who, events) && i <= k < |events| && k < j < |trace|
    requires who[k] < |trace[k].procs| && Returned(trace[k].procs[who[k]], events[k]).Some?
    ensures var start := Stored(c, trace[0].files);
            var returned := Returned(trace[k].procs[who[k]], events[k]).value;
            match returned.1
            case NotDone => returned.0 !in trace[j].committers
            case Done(taken) => CommittedOnce(start, trace[i], trace[k], trace[j], returned.0, taken)
  {
    hide RoundTrips, Taken, Applied, Replayed, IsMutationOf, Decoded, Read, OpenTmp, Append, Rename;
    var start := Stored(c, trace[0].files);
    var (call, outcome) := Returned(trace[k].procs[who[k]], events[k]).value;
    CallsStayOk(c, trace, who, events, k);
    CallsStayOk(c, trace, who, events, j);
    CallsStayOk(c, trace, who, events, i);
    HistoryGrows(c, trace, who, events, i, k);
    HistoryGrows(c, trace, who, events, k, j);
    ReturnIsOver(c, start, trace[k], who[k], events[k]);
    OverStaysOver(c, trace, who, events, k + 1, j, call);
    if outcome.Done? {
      var n: nat :| CommittedAt(start, trace[k], call, outcome.taken, n);
      assert trace[j].log[..n] == trace[k].log[..n];
      assert CommittedAt(start, trace[j], call, outcome.taken, n);
      CommitHasEffect(start, trace[j], call, outcome.taken, n);
    }
  }

  lemma {:induction false} CommitHasEffect(start: seq<Session>, s: State, call: nat, taken: seq<Session>, n: nat)
    requires CommittedAt(start, s, call, taken, n)
    ensures EffectAt(start, s, call, taken, n)
  {
    hide Applied, Taken, Effect;
    var m, before := s.log[n], Replayed(start, s.log[..n]);
    assert s.log[..n + 1] == s.log[..n] + [m];
    ReplayedOneMore(start, s.log[..n], m);
    MutationByPosition(m, before);
    var alive := if m.Collect? then m.alive else k => true;
    assert OpEffect(s.calls[call], alive, before, Applied(m, before), taken);
  }

  /** What a call is about to store and return, once it has read the file and asked who is alive. */
  lemma {:induction false} ReadHasEffect(c: Codec, start: seq<Session>, s: State, p: nat, alive: nat -> bool)
    requires Inv(c, start, s) && Enabled(c, s, p, ReadData(alive))
    ensures var q := Next(c, s, p, ReadData(alive)).procs[p];
            && q.Mutated? && q.call < |s.calls|
            && OpEffect(s.calls[q.call], alive, Stored(c, s.files), q.sessions, q.taken)
  {
    hide Applied, Taken, Effect, Decoded;
    var sessions := Stored(c, s.files);
    assert ProcOk(c, start, s.files, s.log, s.procs[p]);
    MutationByPosition(MutationOf(s.calls[s.procs[p].call], alive), sessions);
  }

  lemma {:induction false} ReturnIsOver(c: Codec, start: seq<Session>, s: State, p: nat, e: Event)
    requires CallsOk(start, s) && Enabled(c, s, p, e) && Returned(s.procs[p], e).Some?
    ensures Over(Next(c, s, p, e), Returned(s.procs[p], e).value.0) && Next(c, s, p, e).committers == s.committers
  {
    hide CommittedAt, IsMutationOf;
    var call := Returned(s.procs[p], e).value.0;
    assert CallOf(s.procs[p]) == Some(call);
    forall q | 0 <= q < |s.procs| && q != p ensures CallOf(s.procs[q]) != Some(call) {
      assert p < q || q < p;
    }
  }

  // ------------------------------------- a call under the lock is one read-modify-write

  lemma {:induction false} StepUndisturbs(c: Codec, start: seq<Session>, s: State, p: nat, e: Event)
    requires Inv(c, start, s) && Enabled(c, s, p, e)
    ensures ReadersUndisturbed(s.files, Next(c, s, p, e).files)
  {
    hide Applied, Taken, Replayed, Decoded, Stored;
    assert ProcOk(c, start, s.files, s.log, s.procs[p]);
  }

  predicate OwnMutation(s: State, p: nat, m: Mutation)
    requires p < |s.procs| && CallOf(s.procs[p]).Some?
  {
    s.procs[p].call < |s.calls| && IsMutationOf(s.calls[s.procs[p].call], m)
  }

  /** Whether `p` has committed since the log was `log`, and what: nobody else has. */
  ghost predicate AloneSince(start: seq<Session>, log: seq<Mutation>, s: State, p: nat) {
    && p < |s.procs| && InsideLock(s.procs[p])
    && if HasCommitted(s.procs[p])
       then exists m ::
              s.log == log + [m] && OwnMutation(s, p, m) && s.procs[p].outcome.taken == Taken(m, Replayed(start, log))
       else s.log == log
  }

  lemma {:induction false} StaysAlone(
        c: Codec, start: seq<Session>, log: seq<Mutation>, s: State, p: nat, q: nat, e: Event,
                                      s': State)
    requires Inv(c, start, s) && CallsOk(start, s) && Enabled(c, s, q, e) && s' == Next(c, s, q, e)
    requires AloneSince(start, log, s, p) && p < |s'.procs| && InsideLock(s'.procs[p])
    ensures AloneSince(start, log, s', p)
  {
    hide Applied, Taken, Replayed, Decoded, Stored, FilesOk, OpenTmp, Append, Rename, Read;
    if q == p && e.RenameTmp? {
      assert ProcOk(c, start, s.files, s.log, s.procs[p]) && CallOk(start, s, s.procs[p]);
    }
  }

  /**
   While a process is inside the lock, from having taken it to leaving it, whatever the
   others do meanwhile, the files change as `LockedMutate` says: by its own mutation if
   it has committed, and otherwise not as far as any reader can see.
   */
  lemma {:induction false} InsideLockIsLockedMutate(c: Codec, trace: seq<State>, who: seq<nat>, events: seq<Event>,
                                                    p: nat, i: nat, j: nat)
    requires RoundTrips(c) && IsRun(c, trace, who, events) && i <= j < |trace|
    requires p < |trace[i].procs| && trace[i].procs[p].Locked?
    requires forall k :: i <= k <= j ==> p < |trace[k].procs| && InsideLock(trace[k].procs[p])
    ensures var f, f', proc := trace[i].files, trace[j].files, trace[j].procs[p];
            if HasCommitted(proc)
            then exists m ::
                   && OwnMutation(trace[j], p, m) && MutationDone(c, m, f, f', true)
                   && proc.outcome.taken == Taken(m, Stored(c, f))
            else forall m :: MutationDone(c, m, f, f', false)
  {
    hide Inv, RoundTrips, Enabled, Next, Applied, Taken, Replayed, Stored, FilesOk, ReadersUndisturbed;
    var start := Stored(c, trace[0].files);
    AloneUntil(c, trace, who, events, p, i, j);
    DataIsCommittedLog(c, trace, who, events, i);
    DataIsCommittedLog(c, trace, who, events, j);
    InvFiles(c, start, trace[j]);
    if HasCommitted(trace[j].procs[p]) {
      var m :| trace[j].log == trace[i].log + [m] && OwnMutation(trace[j], p, m)
        && trace[j].procs[p].outcome.taken == Taken(m, Replayed(start, trace[i].log));
      ReplayedOneMore(start, trace[i].log, m);
      assert MutationDone(c, m, trace[i].files, trace[j].files, true);
    }
  }

  lemma {:induction false} InvFiles(c: Codec, start: seq<Session>, s: State)
    requires Inv(c, start, s)
    ensures FilesOk(s.files)
  {}

  lemma {:induction false} AloneUntil(c: Codec, trace: seq<State>, who: seq<nat>, events: seq<Event>, p: nat,
                                      i: nat, j: nat)
    requires RoundTrips(c) && IsRun(c, trace, who, events) && i <= j < |trace|
    requires p < |trace[i].procs| && trace[i].procs[p].Locked?
    requires forall k :: i <= k <= j ==> p < |trace[k].procs| && InsideLock(trace[k].procs[p])
    ensures AloneSince(Stored(c, trace[0].files), trace[i].log, trace[j], p)
    ensures ReadersUndisturbed(trace[i].files, trace[j].files)
    decreases j - i
  {
    hide Inv, RoundTrips, Enabled, Next, Applied, Taken, Replayed, Stored, ReadersUndisturbed, AloneSince, CallsOk;
    if i < j {
      var start := Stored(c, trace[0].files);
      AloneUntil(c, trace, who, events, p, i, j - 1);
      DataIsCommittedLog(c, trace, who, events, j - 1);
      CallsStayOk(c, trace, who, events, j - 1);
      assert trace[j - 1 + 1] == Next(c, trace[j - 1], who[j - 1], events[j - 1]) && InsideLock(trace[j].procs[p]);
      StaysAlone(c, start, trace[i].log, trace[j - 1], p, who[j - 1], events[j - 1], trace[j]);
      StepUndisturbs(c, start, trace[j - 1], who[j - 1], events[j - 1]);
      UndisturbedTransitive(trace[i].files, trace[j - 1].files, trace[j].files);
    } else {
      AloneAtFirst(Stored(c, trace[0].files), trace[i], p);
    }
  }

  lemma {:induction false} AloneAtFirst(start: seq<Session>, s: State, p: nat)
    requires p < |s.procs| && s.procs[p].Locked?
    ensures AloneSince(start, s.log, s, p) && ReadersUndisturbed(s.files, s.files)
  {}

  lemma {:induction false} UndisturbedTransitive(f: Files, g: Files, h: Files)
    requires ReadersUndisturbed(f, g) && ReadersUndisturbed(g, h)
    ensures ReadersUndisturbed(f, h)
  {}
}
