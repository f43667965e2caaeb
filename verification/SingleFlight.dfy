/** The artifact store's `get_or_build`, run by any number of processes on one key:
    a state machine over the steps the processes and the operating system take. */
module SingleFlight {
  import opened Basics

  type Pid = nat
  type Inode = nat
  type Ext = string
  type Bytes = seq<int>

  datatype Result = Hit | Built | Failed

  /** Where a process is in `get_or_build`. From Recheck to Releasing it holds the flock on `inode`. */
  datatype Pc =
    | Look
    | Open
    | Waiting(inode: Inode)
    | Recheck(inode: Inode)
    | Building(inode: Inode)
      // The build's files still to be stored, and the temporary copy of the first.
    | Storing(inode: Inode, todo: seq<(Ext, Bytes)>, temp: Bytes)
    | Releasing(inode: Inode, result: Result)
    | Finished(result: Result)
    | Crashed

  datatype Proc = Proc(want: Ext, pc: Pc)

  /** The key's corner of the machine: the processes, the lock file's inode, who holds the lock
      on each inode, and the visible artifacts. For the statements only: every file a
      build has completed, and how often each artifact was published. */
  datatype State = State(
    procs: map<Pid, Proc>, lockFile: Option<Inode>, next: Inode, held: map<Inode, Pid>, entries: map<Ext, Bytes>,
    outputs: set<(Ext, Bytes)>, published: map<Ext, nat>)

  datatype Action =
    | LookFor(p: Pid)
    | OpenLock(p: Pid)
    | Acquire(p: Pid)
    | LookAgain(p: Pid)
    | FinishBuild(p: Pid, files: seq<(Ext, Bytes)>)
    | FailBuild(p: Pid)
    | Write(p: Pid, n: nat)
    | Publish(p: Pid)
    | FailStore(p: Pid)
    | Unlink(p: Pid, ok: bool)
    | Release(p: Pid)
    | Crash(p: Pid)
    | Collect(ext: Ext)

  predicate Holding(pc: Pc) {
    pc.Recheck? || pc.Building? || pc.Storing? || pc.Releasing?
  }

  predicate DistinctExts(files: seq<(Ext, Bytes)>) {
    forall i, j :: 0 <= i < j < |files| ==> files[i].0 != files[j].0
  }

  predicate Produces(files: seq<(Ext, Bytes)>, e: Ext) {
    exists i :: 0 <= i < |files| && files[i].0 == e
  }

  /** Can the action happen now? */
  predicate Enabled(s: State, a: Action) {
    if a.Collect? then a.ext in s.entries else a.p in s.procs && Ready(s, s.procs[a.p].pc, a)
  }

  predicate Ready(s: State, pc: Pc, a: Action) {
    match a
    case LookFor(_) => pc.Look?
    case OpenLock(_) => pc.Open?
    case Acquire(_) => pc.Waiting? && pc.inode !in s.held
    case LookAgain(_) => pc.Recheck?
    case FinishBuild(_, files) => pc.Building? && DistinctExts(files)
    case FailBuild(_) => pc.Building?
    case Write(_, n) => pc.Storing? && pc.todo != [] && |pc.temp| + n <= |pc.todo[0].1|
    case Publish(_) => pc.Storing? && pc.todo != [] && pc.temp == pc.todo[0].1
    case FailStore(_) => pc.Storing?
    case Unlink(_, _) => pc.Storing? && pc.todo == []
    case Release(_) => pc.Releasing?
    case Crash(_) => !pc.Finished? && !pc.Crashed?
    case Collect(_) => false
  }

  function At(s: State, p: Pid, pc: Pc): State
    requires p in s.procs
  {
    s.(procs := s.procs[p := s.procs[p].(pc := pc)])
  }

  function Unlock(s: State, inode: Inode): State {
    s.(held := s.held - {inode})
  }

  function Next(s: State, a: Action): State
    requires Enabled(s, a)
  {
    if a.Collect? then s.(entries := s.entries - {a.ext})
    else
      var want, pc := s.procs[a.p].want, s.procs[a.p].pc;
      match a
      case LookFor(p) => At(s, p, if want in s.entries then Finished(Hit) else Open)
      case OpenLock(p) => (
        match s.lockFile
        case Some(inode) => At(s, p, Waiting(inode))
        case None => At(s, p, Waiting(s.next)).(lockFile := Some(s.next), next := s.next + 1))
      case Acquire(p) => At(s, p, Recheck(pc.inode)).(held := s.held[pc.inode := p])
      case LookAgain(p) => At(s, p, if want in s.entries then Releasing(pc.inode, Hit) else Building(pc.inode))
      case FinishBuild(p, files) =>
        // A build that lacks the wanted file is an error: nothing is stored.
        if !Produces(files, want) then At(s, p, Releasing(pc.inode, Failed))
        else At(s, p, Storing(pc.inode, files, [])).(outputs := s.outputs + (set f | f in files))
      case FailBuild(p) => At(s, p, Releasing(pc.inode, Failed))
      case Write(p, n) => At(s, p, pc.(temp := pc.todo[0].1[..|pc.temp| + n]))
      case Publish(p) =>
        var e := pc.todo[0].0;
        At(s, p, pc.(todo := pc.todo[1..], temp := [])).(entries := s.entries[e := pc.temp],
          published := s.published[e := Count(s, e) + 1])
      case FailStore(p) => At(s, p, Releasing(pc.inode, Failed))
      case Unlink(p, ok) => At(s, p, Releasing(pc.inode, Built)).(lockFile := if ok then None else s.lockFile)
      case Release(p) => Unlock(At(s, p, Finished(pc.result)), pc.inode)
      case Crash(p) => if Holding(pc) then Unlock(At(s, p, Crashed), pc.inode) else At(s, p, Crashed)
  }

  function Count(s: State, e: Ext): nat {
    if e in s.published then s.published[e] else 0
  }

  /** Before anyone has looked, with an empty store. */
  predicate Initial(s: State) {
    && (forall p :: p in s.procs ==> s.procs[p].pc.Look?)
    && s.lockFile == None && s.held == map[] && s.entries == map[] && s.outputs == {} && s.published == map[]
  }

  /** `actions` can happen one after the other from `s`. */
  predicate IsRun(s: State, actions: seq<Action>)
    decreases |actions|
  {
    actions == [] || (Enabled(s, actions[0]) && IsRun(Next(s, actions[0]), actions[1..]))
  }

  function After(s: State, actions: seq<Action>): State
    requires IsRun(s, actions)
    decreases |actions|
  {
    if actions == [] then s else After(Next(s, actions[0]), actions[1..])
  }

  // ---- what every step keeps, collections included ------------------------

  /** The inode a process holds or waits for. */
  predicate On(pc: Pc) {
    Holding(pc) || pc.Waiting?
  }

  /** A process holds a lock exactly where its program counter says, and inode numbers are fresh. */
  predicate LocksMatch(s: State) {
    && (forall p :: p in s.procs ==> LockMatches(s, p))
    && (forall i :: i in s.held ==> HolderMatches(s, i))
    && (s.lockFile.Some? ==> s.lockFile.value < s.next)
  }

  predicate HolderMatches(s: State, i: Inode)
    requires i in s.held
  {
    s.held[i] in s.procs && Holding(s.procs[s.held[i]].pc) && s.procs[s.held[i]].pc.inode == i
  }

  predicate LockMatches(s: State, p: Pid)
    requires p in s.procs
  {
    var pc := s.procs[p].pc;
    && (Holding(pc) ==> pc.inode in s.held && s.held[pc.inode] == p)
    && (On(pc) ==> pc.inode < s.next)
  }

  /** Every visible artifact, and every file being stored, is what a finished build produced. */
  predicate OnlyComplete(s: State) {
    && (forall e :: e in s.entries ==> (e, s.entries[e]) in s.outputs)
    && (forall p :: p in s.procs && s.procs[p].pc.Storing? ==> StoringComplete(s.procs[p].pc, s.outputs))
  }

  predicate StoringComplete(pc: Pc, outputs: set<(Ext, Bytes)>)
    requires pc.Storing?
  {
    && (forall f :: f in pc.todo ==> f in outputs)
    && DistinctExts(pc.todo)
    && (pc.todo != [] ==> pc.temp <= pc.todo[0].1)
  }

  lemma StepKeepsLocks(s: State, a: Action)
    requires LocksMatch(s) && Enabled(s, a)
    ensures LocksMatch(Next(s, a))
  {
    var s' := Next(s, a);
    forall p | p in s'.procs ensures LockMatches(s', p) {
      StepKeepsLockOf(s, a, p);
    }
    forall i | i in s'.held ensures HolderMatches(s', i) {
      StepKeepsHolder(s, a, i);
    }
    if !a.Collect? {
      assert LockMatches(s, a.p);
    }
  }

  lemma StepKeepsLockOf(s: State, a: Action, p: Pid)
    requires LocksMatch(s) && Enabled(s, a) && p in s.procs
    ensures p in Next(s, a).procs && LockMatches(Next(s, a), p)
  {
    assert LockMatches(s, p);
    if !a.Collect? {
      if p == a.p {
        StepKeepsOwnLock(s, a);
      } else {
        StepKeepsOtherLock(s, a, p);
      }
    }
  }

  lemma StepKeepsOwnLock(s: State, a: Action)
    requires LocksMatch(s) && Enabled(s, a) && !a.Collect?
    ensures LockMatches(Next(s, a), a.p)
  {
    assert LockMatches(s, a.p);
  }

  lemma StepKeepsOtherLock(s: State, a: Action, p: Pid)
    requires LocksMatch(s) && Enabled(s, a) && !a.Collect? && p in s.procs && p != a.p
    ensures LockMatches(Next(s, a), p)
  {
    assert LockMatches(s, p) && LockMatches(s, a.p);
  }

  lemma StepKeepsHolder(s: State, a: Action, i: Inode)
    requires LocksMatch(s) && Enabled(s, a) && i in Next(s, a).held
    ensures HolderMatches(Next(s, a), i)
  {
    if i in s.held {
      assert HolderMatches(s, i) && LockMatches(s, s.held[i]);
      if !a.Collect? {
        OldHolderStays(s, a, i);
      }
    } else {
      assert a.Acquire?;
    }
  }

  lemma OldHolderStays(s: State, a: Action, i: Inode)
    requires Enabled(s, a) && !a.Collect? && LockMatches(s, a.p)
    requires i in s.held && HolderMatches(s, i) && i in Next(s, a).held
    ensures HolderMatches(Next(s, a), i)
  {
  }

  lemma StepKeepsComplete(s: State, a: Action)
    requires OnlyComplete(s) && Enabled(s, a)
    ensures OnlyComplete(Next(s, a))
  {
  }

  /** After any run from an empty store, gc and crashes included, a visible artifact is
      the whole output of a build that finished, and locks are held as the processes think. */
  lemma {:induction false} ArtifactsAreComplete(s: State, actions: seq<Action>)
    requires IsRun(s, actions) && LocksMatch(s) && OnlyComplete(s)
    ensures LocksMatch(After(s, actions)) && OnlyComplete(After(s, actions))
    decreases |actions|
  {
    if actions != [] {
      StepKeepsLocks(s, actions[0]);
      StepKeepsComplete(s, actions[0]);
      ArtifactsAreComplete(Next(s, actions[0]), actions[1..]);
    }
  }

  // ---- single flight ------------------------------------------------------

  /** The process is building or storing. */
  predicate Working(pc: Pc) {
    pc.Building? || pc.Storing?
  }

  predicate OneBuilder(s: State) {
    forall p, q :: p in s.procs && q in s.procs && Working(s.procs[p].pc) && Working(s.procs[q].pc) ==> p == q
  }

  predicate Lacks(s: State, p: Pid)
    requires p in s.procs
  {
    s.procs[p].want !in s.entries
  }

  predicate Pending(s: State, p: Pid)
    requires p in s.procs
  {
    Lacks(s, p) || s.procs[p].pc.Storing?
  }

  /** The process may yet build, or is at it, under the lock on `inode`. */
  predicate Claims(pc: Pc) {
    pc.Waiting? || pc.Recheck? || Working(pc)
  }

  /** What two processes want is not left out both times. */
  predicate LeavesFewOut(s: State, files: seq<(Ext, Bytes)>) {
    forall p, q :: p in s.procs && q in s.procs && p != q ==>
      Produces(files, s.procs[p].want) || Produces(files, s.procs[q].want)
  }

  /** What single flight rests on, whatever files of the key the processes want. While two of them have work before
      them, those who may do it lock the present lock file; whoever builds found its own file missing; and
      whoever stores leaves at most one process without its file. */
  predicate Protocol(s: State) {
    && (forall p :: p in s.procs ==> ProtocolAt(s, p))
    && (forall p, q :: p in s.procs && q in s.procs && p != q ==> LocksPresent(s, p, q))
  }

  predicate ProtocolAt(s: State, p: Pid)
    requires p in s.procs
  {
    var want, pc := s.procs[p].want, s.procs[p].pc;
    && (pc.Building? ==> Lacks(s, p))
    && (pc.Storing? ==> (want in s.entries || Produces(pc.todo, want)) && LeavesFewLacking(s, pc.todo))
  }

  predicate LeavesFewLacking(s: State, todo: seq<(Ext, Bytes)>) {
    forall p, q :: p in s.procs && q in s.procs && p != q && Lacks(s, p) && Lacks(s, q) ==>
      Produces(todo, s.procs[p].want) || Produces(todo, s.procs[q].want)
  }

  predicate LocksPresent(s: State, p: Pid, q: Pid)
    requires p in s.procs && q in s.procs
  {
    Pending(s, p) && Pending(s, q) && Claims(s.procs[p].pc) ==> s.lockFile == Some(s.procs[p].pc.inode)
  }

  /** A wanted file may be collected when all who may then build lock the present lock file, and whoever stores has
      it still to publish: in particular when nobody holds or awaits a lock. */
  predicate SafeToCollect(s: State, e: Ext) {
    forall p, q :: p in s.procs && q in s.procs && s.procs[q].want == e ==> SafeAt(s, e, p)
  }

  predicate SafeAt(s: State, e: Ext, p: Pid)
    requires p in s.procs
  {
    var want, pc := s.procs[p].want, s.procs[p].pc;
    && (Claims(pc) && (Pending(s, p) || want == e) ==> s.lockFile == Some(pc.inode))
    && (pc.Storing? ==> Produces(pc.todo, e))
  }

  /** The step's build, if it is stored at all, leaves out what at most one process wants; its collection is safe. */
  predicate Orderly(s: State, a: Action) {
    && (a.FinishBuild? && a.p in s.procs && Produces(a.files, s.procs[a.p].want) ==> LeavesFewOut(s, a.files))
    && (a.Collect? ==> SafeToCollect(s, a.ext))
  }

  lemma ExcludesOthers(s: State)
    requires LocksMatch(s) && Protocol(s)
    ensures OneBuilder(s)
  {
    forall p, q | p in s.procs && q in s.procs && Working(s.procs[p].pc) && Working(s.procs[q].pc) ensures p == q {
      assert LockMatches(s, p) && LockMatches(s, q) && ProtocolAt(s, p) && ProtocolAt(s, q);
      assert p != q ==> LocksPresent(s, p, q) && LocksPresent(s, q, p);
    }
  }

  lemma StepKeepsProtocol(s: State, a: Action)
    requires LocksMatch(s) && Protocol(s) && Enabled(s, a) && Orderly(s, a)
    ensures Protocol(Next(s, a))
  {
    var s' := Next(s, a);
    ExcludesOthers(s);
    forall p | p in s'.procs ensures ProtocolAt(s', p) {
      StepKeepsProtocolAt(s, a, p);
    }
    forall p, q | p in s'.procs && q in s'.procs && p != q ensures LocksPresent(s', p, q) {
      StepKeepsPresent(s, a, p, q);
    }
  }

  lemma StepKeepsProtocolAt(s: State, a: Action, p: Pid)
    requires Protocol(s) && OneBuilder(s) && Enabled(s, a) && Orderly(s, a) && p in s.procs
    ensures ProtocolAt(Next(s, a), p)
  {
    assert ProtocolAt(s, p);
    if a.Collect? {
      if s.procs[p].pc.Storing? {
        CollectKeepsStoring(s, a.ext, p);
      }
    } else if a.p != p {
      if s.procs[p].pc.Storing? {
        FewerLack(s, a, s.procs[p].pc.todo);
      }
    } else if a.Publish? {
      PublishKeepsStoring(s, p);
    } else if a.FinishBuild? && Produces(a.files, s.procs[p].want) {
      FewerLack(s, a, a.files);
    } else if a.Write? {
      FewerLack(s, a, s.procs[p].pc.todo);
    }
  }

  lemma FewerLack(s: State, a: Action, todo: seq<(Ext, Bytes)>)
    requires Enabled(s, a) && !a.Collect? && LeavesFewLacking(s, todo)
    ensures LeavesFewLacking(Next(s, a), todo)
  {
    var s' := Next(s, a);
    WantsStay(s, a);
    forall p, q | p in s'.procs && q in s'.procs && p != q && Lacks(s', p) && Lacks(s', q)
      ensures Produces(todo, s'.procs[p].want) || Produces(todo, s'.procs[q].want)
    {
      assert Lacks(s, p) && Lacks(s, q);
    }
  }

  lemma WantsStay(s: State, a: Action)
    requires Enabled(s, a) && !a.Collect?
    ensures Next(s, a).procs.Keys == s.procs.Keys && s.entries.Keys <= Next(s, a).entries.Keys
    ensures forall p :: p in s.procs ==> Next(s, a).procs[p].want == s.procs[p].want
  {
    ActorOnly(s, a);
    EntriesStay(s, a);
  }

  lemma ActorOnly(s: State, a: Action)
    requires Enabled(s, a) && !a.Collect?
    ensures exists pc :: Next(s, a).procs == s.procs[a.p := Proc(s.procs[a.p].want, pc)]
  {
    assert Next(s, a).procs == s.procs[a.p := Proc(s.procs[a.p].want, Next(s, a).procs[a.p].pc)];
  }

  lemma EntriesStay(s: State, a: Action)
    requires Enabled(s, a) && !a.Collect?
    ensures s.entries.Keys <= Next(s, a).entries.Keys
  {
  }

  lemma CollectKeepsStoring(s: State, e: Ext, p: Pid)
    requires Protocol(s) && e in s.entries && SafeToCollect(s, e) && p in s.procs && s.procs[p].pc.Storing?
    ensures ProtocolAt(Next(s, Collect(e)), p)
  {
    var s', todo := Next(s, Collect(e)), s.procs[p].pc.todo;
    assert ProtocolAt(s, p);
    forall q | q in s.procs && s.procs[q].want == e ensures Produces(todo, e) {
      assert SafeAt(s, e, p);
    }
    forall q | q in s.procs && Lacks(s', q) ensures Lacks(s, q) || Produces(todo, s.procs[q].want) {
    }
  }

  lemma PublishKeepsStoring(s: State, p: Pid)
    requires Protocol(s) && Enabled(s, Publish(p))
    ensures ProtocolAt(Next(s, Publish(p)), p)
  {
    var s', todo := Next(s, Publish(p)), s.procs[p].pc.todo;
    assert ProtocolAt(s, p);
    forall q | q in s.procs && Produces(todo, s.procs[q].want)
      ensures !Lacks(s', q) || Produces(todo[1..], s.procs[q].want)
    {
      ProducesRest(todo, s.procs[q].want);
    }
  }

  lemma StepKeepsPresent(s: State, a: Action, p: Pid, q: Pid)
    requires LocksMatch(s) && Protocol(s) && OneBuilder(s) && Enabled(s, a) && Orderly(s, a)
    requires p in s.procs && q in s.procs && p != q
    ensures LocksPresent(Next(s, a), p, q)
  {
    if a.Collect? {
      CollectKeepsPresent(s, a.ext, p, q);
    } else if a.Unlink? && a.ok {
      UnlinkLeavesOne(s, a.p, p, q);
    } else {
      OthersKeepPresent(s, a, p, q);
    }
  }

  lemma CollectKeepsPresent(s: State, e: Ext, p: Pid, q: Pid)
    requires Protocol(s) && e in s.entries && SafeToCollect(s, e) && p in s.procs && q in s.procs && p != q
    ensures LocksPresent(Next(s, Collect(e)), p, q)
  {
    var s' := Next(s, Collect(e));
    assert LocksPresent(s, p, q);
    assert Lacks(s', q) && !Lacks(s, q) ==> SafeAt(s, e, p);
    assert Lacks(s', p) && !Lacks(s, p) ==> SafeAt(s, e, p);
  }

  lemma OthersKeepPresent(s: State, a: Action, p: Pid, q: Pid)
    requires LocksMatch(s) && Protocol(s) && Enabled(s, a) && !a.Collect? && (a.Unlink? ==> !a.ok)
    requires p in s.procs && q in s.procs && p != q
    ensures LocksPresent(Next(s, a), p, q)
  {
    assert LocksPresent(s, p, q) && LocksPresent(s, q, p) && ProtocolAt(s, p) && ProtocolAt(s, q);
    PendingBefore(s, a, p);
    PendingBefore(s, a, q);
  }

  lemma PendingBefore(s: State, a: Action, p: Pid)
    requires Protocol(s) && Enabled(s, a) && !a.Collect? && p in s.procs
    ensures Pending(Next(s, a), p) ==> Pending(s, p)
  {
    EntriesStay(s, a);
    assert ProtocolAt(s, p);
  }

  lemma UnlinkLeavesOne(s: State, u: Pid, p: Pid, q: Pid)
    requires Protocol(s) && OneBuilder(s) && Enabled(s, Unlink(u, true)) && p in s.procs && q in s.procs && p != q
    ensures LocksPresent(Next(s, Unlink(u, true)), p, q)
  {
    assert ProtocolAt(s, u);
    assert forall x :: x in s.procs && x != u && Pending(s, x) ==> Lacks(s, x);
  }

  lemma ProducesRest(todo: seq<(Ext, Bytes)>, e: Ext)
    requires todo != []
    ensures Produces(todo, e) <==> todo[0].0 == e || Produces(todo[1..], e)
  {
    if Produces(todo, e) && todo[0].0 != e {
      var i :| 0 <= i < |todo| && todo[i].0 == e;
      assert todo[1..][i - 1].0 == e;
    }
    if i :| 0 <= i < |todo[1..]| && todo[1..][i].0 == e {
      assert todo[i + 1].0 == e;
    }
  }

  /** Every step of the run is orderly where it is taken. */
  predicate OrderlyRun(s: State, actions: seq<Action>)
    requires IsRun(s, actions)
    decreases |actions|
  {
    actions == [] || (Orderly(s, actions[0]) && OrderlyRun(Next(s, actions[0]), actions[1..]))
  }

  lemma InitialIsSound(s: State)
    requires Initial(s)
    ensures LocksMatch(s) && OnlyComplete(s) && Protocol(s)
  {
  }

  lemma {:induction false} RunKeepsProtocol(s: State, actions: seq<Action>)
    requires IsRun(s, actions) && OrderlyRun(s, actions) && LocksMatch(s) && Protocol(s)
    ensures LocksMatch(After(s, actions)) && Protocol(After(s, actions))
    decreases |actions|
  {
    if actions != [] {
      StepKeepsLocks(s, actions[0]);
      StepKeepsProtocol(s, actions[0]);
      RunKeepsProtocol(Next(s, actions[0]), actions[1..]);
    }
  }

  /** Single flight: whatever files of the key the processes want, and however they interleave, fail and crash, at
      most one of them is building or storing, provided a build that is stored leaves out what at most one process
      wants and collections are safe where they happen. */
  lemma OneBuilderHolds(s: State, actions: seq<Action>)
    requires Initial(s) && IsRun(s, actions) && OrderlyRun(s, actions)
    ensures OneBuilder(After(s, actions))
  {
    InitialIsSound(s);
    RunKeepsProtocol(s, actions);
    ExcludesOthers(After(s, actions));
  }

  // ---- one wanted file ----------------------------------------------------

  /** What holds besides when all processes want `e`: it is published at most once, and whoever returned it can find
      it. */
  predicate Once(s: State, e: Ext) {
    && (forall p :: p in s.procs ==> OnceAt(s, e, s.procs[p]))
    && Count(s, e) == (if e in s.entries then 1 else 0)
  }

  predicate OnceAt(s: State, e: Ext, proc: Proc) {
    var pc := proc.pc;
    && proc.want == e
    && (pc.Storing? ==> DistinctExts(pc.todo) && (Produces(pc.todo, e) ==> e !in s.entries))
    && ((pc.Releasing? || pc.Finished?) && !pc.result.Failed? ==> e in s.entries)
  }

  /** No gc step in the run. */
  predicate NothingCollected(actions: seq<Action>) {
    forall a :: a in actions ==> !a.Collect?
  }

  lemma StepKeepsOnce(s: State, a: Action, e: Ext)
    requires LocksMatch(s) && Protocol(s) && Once(s, e) && Enabled(s, a) && !a.Collect?
    ensures Orderly(s, a) && Once(Next(s, a), e)
  {
    var s', pc := Next(s, a), s.procs[a.p].pc;
    assert OnceAt(s, e, s.procs[a.p]) && ProtocolAt(s, a.p);
    if a.Publish? {
      PublishedOnce(pc.todo, e);
    }
    ExcludesOthers(s);
    forall p | p in s'.procs ensures OnceAt(s', e, s'.procs[p]) {
      if p != a.p {
        OthersKeepOnce(s, a, e, p);
      }
    }
  }

  lemma OthersKeepOnce(s: State, a: Action, e: Ext, p: Pid)
    requires OneBuilder(s) && Once(s, e) && Enabled(s, a) && !a.Collect? && p in s.procs && p != a.p
    ensures OnceAt(Next(s, a), e, Next(s, a).procs[p])
  {
    assert OnceAt(s, e, s.procs[p]);
    EntriesStay(s, a);
  }

  lemma PublishedOnce(todo: seq<(Ext, Bytes)>, e: Ext)
    requires todo != [] && DistinctExts(todo)
    ensures Produces(todo, e) <==> todo[0].0 == e || Produces(todo[1..], e)
    ensures todo[0].0 == e ==> !Produces(todo[1..], e)
  {
    ProducesRest(todo, e);
  }

  lemma {:induction false} RunKeepsOnce(s: State, actions: seq<Action>, e: Ext)
    requires IsRun(s, actions) && NothingCollected(actions) && LocksMatch(s) && Protocol(s) && Once(s, e)
    ensures LocksMatch(After(s, actions)) && Protocol(After(s, actions)) && Once(After(s, actions), e)
    decreases |actions|
  {
    if actions != [] {
      StepKeepsLocks(s, actions[0]);
      StepKeepsOnce(s, actions[0], e);
      StepKeepsProtocol(s, actions[0]);
      RunKeepsOnce(Next(s, actions[0]), actions[1..], e);
    }
  }

  /** When all want the same file and nothing is collected, it is besides published at most once, and a process that
      finished without failing finds it there. */
  lemma SingleFlightHolds(s: State, actions: seq<Action>, e: Ext)
    requires Initial(s) && (forall p :: p in s.procs ==> s.procs[p].want == e)
    requires IsRun(s, actions) && NothingCollected(actions)
    ensures
      var t := After(s, actions);
      && OneBuilder(t) && Count(t, e) <= 1
      && (forall p :: p in t.procs && t.procs[p].pc.Finished? && !t.procs[p].pc.result.Failed? ==> e in t.entries)
  {
    InitialIsSound(s);
    RunKeepsOnce(s, actions, e);
    var t := After(s, actions);
    ExcludesOthers(t);
    assert forall p :: p in t.procs ==> OnceAt(t, e, t.procs[p]);
  }

  // ---- any wanted files ---------------------------------------------------

  /** The build gives what every process wants. */
  predicate GivesAll(s: State, files: seq<(Ext, Bytes)>) {
    forall p :: p in s.procs ==> Produces(files, s.procs[p].want)
  }

  /** The step collects nothing, its build if stored gives all that is wanted, and it does not end a store half-way. */
  predicate Whole(s: State, a: Action) {
    && !a.Collect?
    && (a.FinishBuild? && a.p in s.procs && Produces(a.files, s.procs[a.p].want) ==> GivesAll(s, a.files))
    && ((a.FailStore? || a.Crash?) && a.p in s.procs && s.procs[a.p].pc.Storing? && s.procs[a.p].pc.todo != [] ==>
          s.published == map[])
  }

  predicate WholeRun(s: State, actions: seq<Action>)
    requires IsRun(s, actions)
    decreases |actions|
  {
    actions == [] || (Whole(s, actions[0]) && WholeRun(Next(s, actions[0]), actions[1..]))
  }

  /** Each file is published at most once: whoever stores has its files still to publish, and leaves nobody without;
      and once something was published, someone is storing or nobody is without. */
  ghost predicate EachOnce(s: State) {
    && (forall e :: Count(s, e) <= 1)
    && (forall p :: p in s.procs ==> EachOnceAt(s, s.procs[p]))
    && (s.published != map[] ==> AllThere(s) || exists p :: p in s.procs && s.procs[p].pc.Storing?)
  }

  predicate AllThere(s: State) {
    forall p :: p in s.procs ==> !Lacks(s, p)
  }

  ghost predicate EachOnceAt(s: State, proc: Proc) {
    var pc := proc.pc;
    && (pc.Storing? ==> DistinctExts(pc.todo) && StillToPublish(s, pc.todo) && LeavesNobody(s, pc.todo))
    && ((pc.Releasing? || pc.Finished?) && !pc.result.Failed? ==> proc.want in s.entries)
  }

  ghost predicate StillToPublish(s: State, todo: seq<(Ext, Bytes)>) {
    forall e :: Produces(todo, e) ==> Count(s, e) == 0
  }

  predicate LeavesNobody(s: State, todo: seq<(Ext, Bytes)>) {
    forall p :: p in s.procs ==> !Lacks(s, p) || Produces(todo, s.procs[p].want)
  }

  lemma StepKeepsEachOnce(s: State, a: Action)
    requires LocksMatch(s) && Protocol(s) && EachOnce(s) && Enabled(s, a) && Whole(s, a)
    ensures Orderly(s, a) && EachOnce(Next(s, a))
  {
    ExcludesOthers(s);
    if a.Publish? {
      PublishKeepsEachOnce(s, a.p);
    } else {
      OthersKeepEachOnce(s, a);
    }
  }

  lemma OthersKeepEachOnce(s: State, a: Action)
    requires Protocol(s) && OneBuilder(s) && EachOnce(s) && Enabled(s, a) && Whole(s, a) && !a.Publish?
    ensures EachOnce(Next(s, a))
  {
    var s' := Next(s, a);
    PublishedStays(s, a);
    NothingBefore(s, a);
    forall e ensures Count(s', e) <= 1 {
      assert Count(s', e) == Count(s, e);
    }
    forall p | p in s'.procs ensures EachOnceAt(s', s'.procs[p]) {
      StepKeepsEachOnceAt(s, a, p);
    }
    StoringGoesOn(s, a);
  }

  /** Nothing was published before a build that is stored. */
  lemma NothingBefore(s: State, a: Action)
    requires Protocol(s) && OneBuilder(s) && EachOnce(s) && Enabled(s, a) && !a.Collect?
    ensures s.procs[a.p].pc.Building? ==> Lacks(s, a.p) && s.published == map[]
  {
    assert ProtocolAt(s, a.p);
  }

  lemma PublishedStays(s: State, a: Action)
    requires Enabled(s, a) && !a.Collect? && !a.Publish?
    ensures Next(s, a).published == s.published && Next(s, a).entries == s.entries
  {
  }

  lemma StepKeepsEachOnceAt(s: State, a: Action, p: Pid)
    requires EachOnce(s) && Enabled(s, a) && Whole(s, a) && !a.Publish? && p in s.procs
    requires s.procs[a.p].pc.Building? ==> Lacks(s, a.p) && s.published == map[]
    ensures EachOnceAt(Next(s, a), Next(s, a).procs[p])
  {
    assert EachOnceAt(s, s.procs[p]);
    PublishedStays(s, a);
    if p == a.p {
      ActorKeepsEachOnce(s, a);
    } else if s.procs[p].pc.Storing? {
      NobodyStaysWithout(s, a, s.procs[p].pc.todo);
    }
  }

  lemma ActorKeepsEachOnce(s: State, a: Action)
    requires Enabled(s, a) && Whole(s, a) && !a.Publish? && EachOnceAt(s, s.procs[a.p])
    requires s.procs[a.p].pc.Building? ==> Lacks(s, a.p) && s.published == map[]
    ensures EachOnceAt(Next(s, a), Next(s, a).procs[a.p])
  {
    var pc := Next(s, a).procs[a.p].pc;
    PublishedStays(s, a);
    if pc.Storing? {
      assert StillToPublish(s, pc.todo) && LeavesNobody(s, pc.todo);
      NobodyStaysWithout(s, a, pc.todo);
    }
  }

  lemma NobodyStaysWithout(s: State, a: Action, todo: seq<(Ext, Bytes)>)
    requires Enabled(s, a) && !a.Collect? && LeavesNobody(s, todo)
    ensures LeavesNobody(Next(s, a), todo)
  {
    var s' := Next(s, a);
    WantsStay(s, a);
    forall x | x in s'.procs ensures !Lacks(s', x) || Produces(todo, s'.procs[x].want) {
      assert !Lacks(s, x) || Produces(todo, s.procs[x].want);
    }
  }

  /** Only one who leaves nobody without ends its store once something was published. */
  lemma StoringGoesOn(s: State, a: Action)
    requires EachOnce(s) && Enabled(s, a) && Whole(s, a) && !a.Publish?
    ensures
      var s' := Next(s, a);
      s'.published != map[] ==> AllThere(s') || exists p :: p in s'.procs && s'.procs[p].pc.Storing?
  {
    var s' := Next(s, a);
    PublishedStays(s, a);
    WantsStay(s, a);
    if s'.published != map[] && !AllThere(s') {
      var x :| x in s'.procs && Lacks(s', x);
      assert Lacks(s, x);
      var p :| p in s.procs && s.procs[p].pc.Storing?;
      assert EachOnceAt(s, s.procs[p]);
      StoringStays(s, a, p, x);
    }
  }

  lemma StoringStays(s: State, a: Action, p: Pid, x: Pid)
    requires Enabled(s, a) && Whole(s, a) && !a.Publish? && s.published != map[]
    requires p in s.procs && s.procs[p].pc.Storing? && LeavesNobody(s, s.procs[p].pc.todo)
    requires x in s.procs && Lacks(s, x)
    ensures p in Next(s, a).procs && Next(s, a).procs[p].pc.Storing?
  {
    assert s.procs[p].pc.todo != [];
  }

  lemma PublishKeepsEachOnce(s: State, p: Pid)
    requires OneBuilder(s) && EachOnce(s) && Enabled(s, Publish(p))
    ensures EachOnce(Next(s, Publish(p)))
  {
    var s', todo := Next(s, Publish(p)), s.procs[p].pc.todo;
    assert EachOnceAt(s, s.procs[p]);
    assert Produces(todo, todo[0].0);
    forall e ensures Count(s', e) == (if e == todo[0].0 then 1 else Count(s, e)) {
      PublishCounts(s, p, e);
    }
    forall e ensures Produces(todo, e) <==> todo[0].0 == e || Produces(todo[1..], e) {
      ProducesRest(todo, e);
    }
    PublishedOnce(todo, todo[0].0);
    forall x | x in s'.procs ensures EachOnceAt(s', s'.procs[x]) {
      assert EachOnceAt(s, s.procs[x]);
      if x == p {
        assert StillToPublish(s', todo[1..]);
        forall y | y in s'.procs ensures !Lacks(s', y) || Produces(todo[1..], s'.procs[y].want) {
          assert !Lacks(s, y) || Produces(todo, s.procs[y].want);
        }
      }
    }
    assert s'.procs[p].pc.Storing?;
  }

  lemma PublishCounts(s: State, p: Pid, e: Ext)
    requires Enabled(s, Publish(p))
    ensures Count(Next(s, Publish(p)), e) == Count(s, e) + (if e == s.procs[p].pc.todo[0].0 then 1 else 0)
  {
  }

  lemma {:induction false} RunKeepsEachOnce(s: State, actions: seq<Action>)
    requires IsRun(s, actions) && WholeRun(s, actions) && LocksMatch(s) && Protocol(s) && EachOnce(s)
    ensures LocksMatch(After(s, actions)) && Protocol(After(s, actions)) && EachOnce(After(s, actions))
    decreases |actions|
  {
    if actions != [] {
      StepKeepsLocks(s, actions[0]);
      StepKeepsEachOnce(s, actions[0]);
      StepKeepsProtocol(s, actions[0]);
      RunKeepsEachOnce(Next(s, actions[0]), actions[1..]);
    }
  }

  /** Whatever files the processes want: when builds that are stored give all of them, no store ends half-way and
      nothing is collected, every file is published at most once, and a process that finished without failing finds its
      own. */
  lemma EachFileIsPublishedOnce(s: State, actions: seq<Action>)
    requires Initial(s) && IsRun(s, actions) && WholeRun(s, actions)
    ensures
      var t := After(s, actions);
      && OneBuilder(t) && (forall e :: Count(t, e) <= 1)
      && (forall p :: p in t.procs && t.procs[p].pc.Finished? && !t.procs[p].pc.result.Failed? ==>
            t.procs[p].want in t.entries)
  {
    InitialIsSound(s);
    RunKeepsEachOnce(s, actions);
    var t := After(s, actions);
    ExcludesOthers(t);
    assert forall p :: p in t.procs ==> EachOnceAt(t, t.procs[p]);
  }

  // ---- what each process returns ------------------------------------------

  /** The process's own build ends, well or not. */
  predicate EndsBuild(a: Action, p: Pid) {
    (a.FinishBuild? || a.FailBuild?) && a.p == p
  }

  predicate EndsNoBuild(actions: seq<Action>, p: Pid) {
    forall a :: a in actions ==> !EndsBuild(a, p)
  }

  /** The process finishes a build that gives the file. */
  ghost predicate Builds(actions: seq<Action>, p: Pid, e: Ext) {
    exists files :: FinishBuild(p, files) in actions && Produces(files, e)
  }

  /** In the run the process publishes the file. */
  predicate Publishes(s: State, actions: seq<Action>, p: Pid, e: Ext)
    requires IsRun(s, actions)
    decreases |actions|
  {
    actions != [] &&
    ((actions[0] == Publish(p) && s.procs[p].pc.todo[0].0 == e) || Publishes(Next(s, actions[0]), actions[1..], p, e))
  }

  /** The process gives up: its build fails or lacks the file, or its store fails. */
  ghost predicate Fails(actions: seq<Action>, p: Pid, e: Ext) {
    FailBuild(p) in actions || FailStore(p) in actions ||
    exists files :: FinishBuild(p, files) in actions && !Produces(files, e)
  }

  /** What a run holds of a process: whether no build of its own ends, it builds its file, publishes it, or gives up. */
  datatype Deeds = Deeds(quiet: bool, builds: bool, publishes: bool, fails: bool)

  ghost function DeedsIn(s: State, actions: seq<Action>, p: Pid, e: Ext): Deeds
    requires IsRun(s, actions)
  {
    Deeds(EndsNoBuild(actions, p), Builds(actions, p, e), Publishes(s, actions, p, e), Fails(actions, p, e))
  }

  /** What that says of a process that finished, by where it was when the run began. */
  predicate Accounts(pc: Pc, want: Ext, r: Result, d: Deeds) {
    match pc
    case Building(_) =>
      !d.quiet && !r.Hit? && (r.Built? ==> d.builds && d.publishes) && (r.Failed? ==> d.fails)
    case Storing(_, todo, _) =>
      d.quiet && !r.Hit? && (r.Built? && Produces(todo, want) ==> d.publishes) && (r.Failed? ==> d.fails)
    case Releasing(_, result) => r == result && d.quiet
    case Finished(result) => r == result && d.quiet
    case Crashed => false
    case _ => (r.Hit? <==> d.quiet) && (r.Built? ==> d.builds && d.publishes) && (r.Failed? ==> d.fails)
  }

  lemma {:induction false} RunAccounts(s: State, actions: seq<Action>, p: Pid, r: Result)
    requires IsRun(s, actions) && p in s.procs && p in After(s, actions).procs
    requires After(s, actions).procs[p].pc == Finished(r)
    ensures Accounts(s.procs[p].pc, s.procs[p].want, r, DeedsIn(s, actions, p, s.procs[p].want))
    decreases |actions|
  {
    if actions != [] {
      var a, want := actions[0], s.procs[p].want;
      if !a.Collect? {
        WantsStay(s, a);
      }
      RunAccounts(Next(s, a), actions[1..], p, r);
      OneActionMore(s, actions, p, want);
      StepAccounts(s, a, p, r, DeedsIn(s, actions, p, want), DeedsIn(Next(s, a), actions[1..], p, want));
    }
  }

  /** One action more: what the process, at `pc` before, does in it is among its deeds. */
  predicate Adds(pc: Pc, a: Action, p: Pid, e: Ext, d: Deeds, rest: Deeds) {
    && (d.quiet <==> !EndsBuild(a, p) && rest.quiet)
    && (rest.builds || (a.FinishBuild? && a.p == p && Produces(a.files, e)) ==> d.builds)
    && (rest.publishes || (a == Publish(p) && pc.Storing? && pc.todo != [] && pc.todo[0].0 == e) ==> d.publishes)
    && (rest.fails || a == FailBuild(p) || a == FailStore(p) ==> d.fails)
    && (a.FinishBuild? && a.p == p && !Produces(a.files, e) ==> d.fails)
  }

  lemma StepAccounts(s: State, a: Action, p: Pid, r: Result, d: Deeds, rest: Deeds)
    requires Enabled(s, a) && p in s.procs && p in Next(s, a).procs
    requires Adds(s.procs[p].pc, a, p, s.procs[p].want, d, rest)
    requires Accounts(Next(s, a).procs[p].pc, s.procs[p].want, r, rest)
    ensures Accounts(s.procs[p].pc, s.procs[p].want, r, d)
  {
    if a.Collect? || a.p != p {
      OthersStay(s, a, p);
    } else if a.Publish? {
      ProducesRest(s.procs[p].pc.todo, s.procs[p].want);
    } else if s.procs[p].pc.Storing? || s.procs[p].pc.Building? {
      WorkAccounts(s, a, p, r, d, rest);
    }
  }

  lemma OthersStay(s: State, a: Action, p: Pid)
    requires Enabled(s, a) && p in s.procs && (a.Collect? || a.p != p)
    ensures p in Next(s, a).procs && Next(s, a).procs[p] == s.procs[p]
  {
  }

  lemma WorkAccounts(s: State, a: Action, p: Pid, r: Result, d: Deeds, rest: Deeds)
    requires Enabled(s, a) && p in s.procs && p in Next(s, a).procs && !a.Collect? && a.p == p && !a.Publish?
    requires s.procs[p].pc.Storing? || s.procs[p].pc.Building?
    requires Adds(s.procs[p].pc, a, p, s.procs[p].want, d, rest)
    requires Accounts(Next(s, a).procs[p].pc, s.procs[p].want, r, rest)
    ensures Accounts(s.procs[p].pc, s.procs[p].want, r, d)
  {
  }

  lemma OneActionMore(s: State, actions: seq<Action>, p: Pid, e: Ext)
    requires actions != [] && IsRun(s, actions) && p in s.procs
    ensures Adds(s.procs[p].pc, actions[0], p, e, DeedsIn(s, actions, p, e),
      DeedsIn(Next(s, actions[0]), actions[1..], p, e))
  {
    var a, rest := actions[0], actions[1..];
    assert forall b :: b in actions <==> b == a || b in rest;
    BuildsMore(actions, p, e);
    FailsMore(actions, p, e);
    assert EndsNoBuild(actions, p) <==> !EndsBuild(a, p) && EndsNoBuild(rest, p);
    PublishesMore(s, actions, p, e);
  }

  lemma PublishesMore(s: State, actions: seq<Action>, p: Pid, e: Ext)
    requires actions != [] && IsRun(s, actions)
    ensures Publishes(Next(s, actions[0]), actions[1..], p, e) ==> Publishes(s, actions, p, e)
    ensures actions[0] == Publish(p) && s.procs[p].pc.todo[0].0 == e ==> Publishes(s, actions, p, e)
  {
  }

  lemma BuildsMore(actions: seq<Action>, p: Pid, e: Ext)
    requires actions != []
    ensures Builds(actions[1..], p, e) ==> Builds(actions, p, e)
    ensures actions[0].FinishBuild? && actions[0].p == p && Produces(actions[0].files, e) ==> Builds(actions, p, e)
  {
    var a := actions[0];
    if a.FinishBuild? && a.p == p {
      assert FinishBuild(p, a.files) in actions;
    }
    if files :| FinishBuild(p, files) in actions[1..] && Produces(files, e) {
      assert FinishBuild(p, files) in actions;
    }
  }

  lemma FailsMore(actions: seq<Action>, p: Pid, e: Ext)
    requires actions != []
    ensures Fails(actions[1..], p, e) ==> Fails(actions, p, e)
    ensures actions[0].FinishBuild? && actions[0].p == p && !Produces(actions[0].files, e) ==> Fails(actions, p, e)
    ensures actions[0] == FailBuild(p) || actions[0] == FailStore(p) ==> Fails(actions, p, e)
  {
    var a := actions[0];
    if a.FinishBuild? && a.p == p {
      assert FinishBuild(p, a.files) in actions;
    }
    if files :| FinishBuild(p, files) in actions[1..] && !Produces(files, e) {
      assert FinishBuild(p, files) in actions;
    }
  }

  /** What `get_or_build` says it did is what it did: a process returns with a hit exactly when no build of its own
      ended; one that returns as having built finished a build that gives its file and published it; and one that fails
      had its build or its store fail, or got a build without its file. */
  lemma ReturnsWhatItDid(s: State, actions: seq<Action>, p: Pid, r: Result)
    requires Initial(s) && IsRun(s, actions) && p in s.procs && p in After(s, actions).procs
    requires After(s, actions).procs[p].pc == Finished(r)
    ensures
      var want := s.procs[p].want;
      && (r.Hit? <==> EndsNoBuild(actions, p))
      && (r.Built? ==> Builds(actions, p, want) && Publishes(s, actions, p, want))
      && (r.Failed? ==> Fails(actions, p, want))
  {
    RunAccounts(s, actions, p, r);
  }

  /** A process that has yet to look for a file already there never waits: while nothing is collected it is done at its
      first step. */
  predicate HitsAtOnce(s: State, p: Pid) {
    p in s.procs && s.procs[p].want in s.entries && s.procs[p].pc in {Look, Finished(Hit), Crashed}
  }

  lemma {:induction false} PresentIsHitAtOnce(s: State, actions: seq<Action>, p: Pid)
    requires IsRun(s, actions) && HitsAtOnce(s, p) && forall a :: a in actions ==> !a.Collect?
    ensures HitsAtOnce(After(s, actions), p)
    decreases |actions|
  {
    if actions != [] {
      assert actions[0] in actions;
      StepHitsAtOnce(s, actions[0], p);
      PresentIsHitAtOnce(Next(s, actions[0]), actions[1..], p);
    }
  }

  lemma StepHitsAtOnce(s: State, a: Action, p: Pid)
    requires Enabled(s, a) && !a.Collect? && HitsAtOnce(s, p)
    ensures HitsAtOnce(Next(s, a), p)
  {
  }

  // ---- nobody waits for ever ----------------------------------------------

  predicate Active(pc: Pc) {
    !pc.Finished? && !pc.Crashed?
  }

  /** An action other than a crash or a collection, that changes its process. */
  predicate Progress(s: State, a: Action) {
    Enabled(s, a) && !a.Collect? && !a.Crash? && Next(s, a).procs[a.p] != s.procs[a.p]
  }

  /** In every state a run can reach, if any process has not ended, some process can take a step. */
  lemma NoDeadlock(s: State, p: Pid) returns (a: Action)
    requires LocksMatch(s) && OnlyComplete(s) && p in s.procs && Active(s.procs[p].pc)
    ensures Progress(s, a)
  {
    var pc := s.procs[p].pc;
    if pc.Waiting? && pc.inode in s.held {
      a := HolderMoves(s, s.held[pc.inode]);
    } else if pc.Waiting? {
      a := Acquire(p);
    } else if pc.Look? {
      a := LookFor(p);
    } else if pc.Open? {
      a := OpenLock(p);
    } else {
      a := HolderMoves(s, p);
    }
  }

  lemma HolderMoves(s: State, p: Pid) returns (a: Action)
    requires OnlyComplete(s) && p in s.procs && Holding(s.procs[p].pc)
    ensures Progress(s, a)
  {
    match s.procs[p].pc
    case Recheck(_) => a := LookAgain(p);
    case Building(_) => a := FailBuild(p);
    case Storing(_, todo, temp) =>
      if todo == [] {
        a := Unlink(p, true);
      } else if temp == todo[0].1 {
        a := Publish(p);
        assert |todo[1..]| < |todo|;
      } else {
        a := Write(p, |todo[0].1| - |temp|);
        assert todo[0].1[..|todo[0].1|] == todo[0].1;
      }
    case Releasing(_, _) => a := Release(p);
  }
}
