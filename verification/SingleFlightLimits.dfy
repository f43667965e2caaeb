/** What single flight rests on: which builds and which collections let two processes build at once. */
module SingleFlightLimits {
  import opened Basics
  import opened SingleFlight

  /** What builds may give. */
  type Outputs = iset<seq<(Ext, Bytes)>>

  /** A step that collects nothing, and whose build gives one of the outputs. */
  predicate Allowed(a: Action, outputs: Outputs) {
    !a.Collect? && (a.FinishBuild? ==> a.files in outputs)
  }

  /** Such steps lead from `s` to `t`. */
  ghost predicate Leads(s: State, t: State, outputs: Outputs) {
    exists actions :: IsRun(s, actions) && After(s, actions) == t && forall a :: a in actions ==> Allowed(a, outputs)
  }

  lemma LeadsNowhere(s: State, outputs: Outputs)
    ensures Leads(s, s, outputs)
  {
    assert IsRun(s, []);
  }

  lemma {:induction false} Extend(s: State, actions: seq<Action>, a: Action)
    requires IsRun(s, actions) && Enabled(After(s, actions), a)
    ensures IsRun(s, actions + [a]) && After(s, actions + [a]) == Next(After(s, actions), a)
    decreases |actions|
  {
    if actions == [] {
      assert (actions + [a])[1..] == [];
    } else {
      Extend(Next(s, actions[0]), actions[1..], a);
      assert (actions + [a])[1..] == actions[1..] + [a];
    }
  }

  /** One step more; locks and files stay in order. */
  lemma Then(s: State, t: State, a: Action, outputs: Outputs) returns (t': State)
    requires Leads(s, t, outputs) && Enabled(t, a) && Allowed(a, outputs) && LocksMatch(t) && OnlyComplete(t)
    ensures t' == Next(t, a) && Leads(s, t', outputs) && LocksMatch(t') && OnlyComplete(t')
  {
    var actions :| IsRun(s, actions) && After(s, actions) == t && forall b :: b in actions ==> Allowed(b, outputs);
    t' := Next(t, a);
    Extend(s, actions, a);
    StepKeepsLocks(t, a);
    StepKeepsComplete(t, a);
    assert After(s, actions + [a]) == t';
  }

  /** A reachable state, in order. */
  ghost predicate Reached(s: State, t: State, outputs: Outputs) {
    Leads(s, t, outputs) && LocksMatch(t) && OnlyComplete(t)
  }

  /** Everyone but those in `changed` is as in `s`. */
  predicate OthersAsIn(s: State, t: State, changed: set<Pid>) {
    t.procs.Keys == s.procs.Keys && forall x :: x in s.procs && x !in changed ==> t.procs[x] == s.procs[x]
  }

  /** Whoever wants a missing file comes to wait for the lock file, making one if there is none. */
  lemma OpensLock(s: State, t: State, r: Pid, outputs: Outputs) returns (t': State)
    requires Reached(s, t, outputs) && r in t.procs && t.procs[r].pc.Look? && t.procs[r].want !in t.entries
    ensures Reached(s, t', outputs) && OthersAsIn(t, t', {r}) && t'.held == t.held && t'.entries == t.entries
    ensures t'.lockFile == Some(if t.lockFile.Some? then t.lockFile.value else t.next)
    ensures t'.procs[r] == Proc(t.procs[r].want, Waiting(t'.lockFile.value))
  {
    t' := Then(s, t, LookFor(r), outputs);
    assert t'.procs[r].pc.Open?;
    t' := Then(s, t', OpenLock(r), outputs);
  }

  /** A waiting process gets its lock, whoever holds it crashing, finds its file missing and builds. */
  lemma TakesLock(s: State, t: State, q: Pid, outputs: Outputs) returns (t': State)
    requires Reached(s, t, outputs) && q in t.procs && t.procs[q].pc.Waiting? && t.procs[q].want !in t.entries
    ensures Reached(s, t', outputs) && t'.entries == t.entries && t'.procs.Keys == t.procs.Keys
    ensures t'.procs[q] == Proc(t.procs[q].want, Building(t.procs[q].pc.inode))
    ensures forall x :: x in t.procs && x != q ==>
      t'.procs[x] == t.procs[x] || (Holding(t.procs[x].pc) && t.procs[x].pc.inode == t.procs[q].pc.inode)
  {
    t' := FreesLock(s, t, t.procs[q].pc.inode, outputs);
    t' := Then(s, t', Acquire(q), outputs);
    assert t'.procs[q].pc == Recheck(t.procs[q].pc.inode);
    t' := Then(s, t', LookAgain(q), outputs);
  }

  lemma FreesLock(s: State, t: State, i: Inode, outputs: Outputs) returns (t': State)
    requires Reached(s, t, outputs)
    ensures Reached(s, t', outputs) && i !in t'.held && t'.entries == t.entries && t'.procs.Keys == t.procs.Keys
    ensures forall x :: x in t.procs ==>
      t'.procs[x] == t.procs[x] || (Holding(t.procs[x].pc) && t.procs[x].pc.inode == i)
  {
    t' := t;
    if i in t.held {
      assert HolderMatches(t, i);
      t' := Then(s, t, Crash(t.held[i]), outputs);
    }
  }

  /** Two processes that wait for different locks, or one that waits and one that works, come to build at once. */
  lemma TwoBuild(s: State, t: State, q: Pid, r: Pid, outputs: Outputs) returns (t': State)
    requires Reached(s, t, outputs) && {q, r} <= t.procs.Keys && q != r
    requires t.procs[q].pc.Waiting? && t.procs[q].want !in t.entries
    requires (t.procs[r].pc.Waiting? && t.procs[r].want !in t.entries) || Working(t.procs[r].pc)
    requires t.procs[q].pc.inode != t.procs[r].pc.inode
    ensures Leads(s, t', outputs) && !OneBuilder(t')
  {
    t' := TakesLock(s, t, q, outputs);
    assert t'.procs[r] == t.procs[r];
    if t.procs[r].pc.Waiting? {
      ghost var before := t';
      t' := TakesLock(s, t', r, outputs);
      assert t'.procs[q] == before.procs[q];
    }
    assert Working(t'.procs[q].pc) && Working(t'.procs[r].pc);
  }

  /** From `t` to `t'` only `p` has moved, and only files were published. */
  predicate OnlyStores(t: State, t': State, p: Pid) {
    && OthersAsIn(t, t', {p}) && t'.held == t.held && t'.lockFile == t.lockFile
    && p in t.procs && p in t'.procs && t'.procs[p].want == t.procs[p].want
    && t.procs[p].pc.Storing? && t'.procs[p].pc.Storing? && t'.procs[p].pc.inode == t.procs[p].pc.inode
  }

  /** A process stores what is left of its build. */
  lemma {:induction false} StoresRest(s: State, t: State, p: Pid, outputs: Outputs) returns (t': State)
    requires Reached(s, t, outputs) && p in t.procs && t.procs[p].pc.Storing?
    ensures Reached(s, t', outputs) && OnlyStores(t, t', p) && t'.procs[p].pc.todo == []
    ensures forall e :: e in t'.entries <==> e in t.entries || Produces(t.procs[p].pc.todo, e)
    decreases if p in t.procs && t.procs[p].pc.Storing? then |t.procs[p].pc.todo| else 0
  {
    var todo := t.procs[p].pc.todo;
    t' := t;
    if todo != [] {
      ghost var t1 := StoresNext(s, t, p, outputs);
      t' := StoresRest(s, t1, p, outputs);
      forall e ensures e in t'.entries <==> e in t.entries || Produces(todo, e) {
        ProducesRest(todo, e);
      }
    }
  }

  lemma StoresNext(s: State, t: State, p: Pid, outputs: Outputs) returns (t': State)
    requires Reached(s, t, outputs) && p in t.procs && t.procs[p].pc.Storing? && t.procs[p].pc.todo != []
    ensures Reached(s, t', outputs) && OnlyStores(t, t', p) && t'.procs[p].pc.todo == t.procs[p].pc.todo[1..]
    ensures t'.entries.Keys == t.entries.Keys + {t.procs[p].pc.todo[0].0}
  {
    t' := WritesAll(s, t, p, outputs);
    t' := Then(s, t', Publish(p), outputs);
  }

  lemma WritesAll(s: State, t: State, p: Pid, outputs: Outputs) returns (t': State)
    requires Reached(s, t, outputs) && p in t.procs && t.procs[p].pc.Storing? && t.procs[p].pc.todo != []
    ensures Reached(s, t', outputs)
    ensures
      var pc := t.procs[p].pc;
      t' == t.(procs := t.procs[p := Proc(t.procs[p].want, Storing(pc.inode, pc.todo, pc.todo[0].1))])
  {
    var pc := t.procs[p].pc;
    assert StoringComplete(pc, t.outputs);
    var file := pc.todo[0].1;
    t' := Then(s, t, Write(p, |file| - |pc.temp|), outputs);
    assert file[..|file|] == file;
  }

  /** While `q` waits for the present lock file, one that has stored its build unlinks it, `r` makes
      another, and if both find their files missing both build. */
  lemma UnlinkedMeanwhile(s: State, t: State, p: Pid, q: Pid, r: Pid, outputs: Outputs) returns (t': State)
    requires Reached(s, t, outputs) && {p, q, r} <= t.procs.Keys && p != q && q != r && p != r
    requires t.procs[p].pc.Storing? && t.procs[p].pc.todo == []
    requires t.procs[q].pc.Waiting? && t.procs[q].want !in t.entries
    requires t.procs[r].pc.Look? && t.procs[r].want !in t.entries
    ensures Leads(s, t', outputs) && !OneBuilder(t')
  {
    assert LockMatches(t, q);
    t' := Then(s, t, Unlink(p, true), outputs);
    assert t'.procs[q] == t.procs[q] && t'.procs[r] == t.procs[r];
    ghost var unlinked := t';
    t' := OpensLock(s, t', r, outputs);
    assert t'.procs[q] == unlinked.procs[q];
    t' := TwoBuild(s, t', q, r, outputs);
  }

  // ---- which builds -------------------------------------------------------

  /** The build gives what `p` wants, so `p` stores it, but leaves out what two others want. */
  predicate LeavesTwoOut(s: State, files: seq<(Ext, Bytes)>, p: Pid, q: Pid, r: Pid) {
    && {p, q, r} <= s.procs.Keys && q != r
    && Produces(files, s.procs[p].want) && !Produces(files, s.procs[q].want) && !Produces(files, s.procs[r].want)
  }

  /** No build that some process stores leaves out what two others want. */
  ghost predicate FewLeftOut(s: State, outputs: Outputs) {
    forall files, p, q, r :: files in outputs && DistinctExts(files) ==> !LeavesTwoOut(s, files, p, q, r)
  }

  /** Two builders can come to be if and only if a build that is stored may leave out what two processes want. */
  lemma OneBuilderExactly(s: State, outputs: Outputs)
    requires Initial(s)
    ensures FewLeftOut(s, outputs) <==> forall t :: Leads(s, t, outputs) ==> OneBuilder(t)
  {
    if FewLeftOut(s, outputs) {
      InitialIsSound(s);
      forall t | Leads(s, t, outputs) ensures OneBuilder(t) {
        FewLeftOutExcludes(s, t, outputs);
      }
    } else {
      var files, p, q, r :| files in outputs && DistinctExts(files) && LeavesTwoOut(s, files, p, q, r);
      var t := LackingBuild(s, files, p, q, r, outputs);
    }
  }

  lemma FewLeftOutExcludes(s: State, t: State, outputs: Outputs)
    requires LocksMatch(s) && Protocol(s) && FewLeftOut(s, outputs) && Leads(s, t, outputs)
    ensures OneBuilder(t)
  {
    var actions :| IsRun(s, actions) && After(s, actions) == t && forall a :: a in actions ==> Allowed(a, outputs);
    FewLeftOutIsOrderly(s, s, actions, outputs);
    RunKeepsProtocol(s, actions);
    ExcludesOthers(t);
  }

  lemma {:induction false} FewLeftOutIsOrderly(s: State, t: State, actions: seq<Action>, outputs: Outputs)
    requires FewLeftOut(s, outputs)
    requires t.procs.Keys == s.procs.Keys && forall p :: p in s.procs ==> t.procs[p].want == s.procs[p].want
    requires IsRun(t, actions) && forall a :: a in actions ==> Allowed(a, outputs)
    ensures OrderlyRun(t, actions)
    decreases |actions|
  {
    if actions != [] {
      var a := actions[0];
      assert Allowed(a, outputs);
      if a.FinishBuild? && Produces(a.files, t.procs[a.p].want) {
        StoredLeavesFewOut(s, t, a.files, a.p, outputs);
      }
      WantsStay(t, a);
      FewLeftOutIsOrderly(s, Next(t, a), actions[1..], outputs);
    }
  }

  lemma StoredLeavesFewOut(s: State, t: State, files: seq<(Ext, Bytes)>, p: Pid, outputs: Outputs)
    requires FewLeftOut(s, outputs) && files in outputs && DistinctExts(files) && p in t.procs &&
      Produces(files, t.procs[p].want)
    requires t.procs.Keys == s.procs.Keys && forall x :: x in s.procs ==> t.procs[x].want == s.procs[x].want
    ensures LeavesFewOut(t, files)
  {
    forall q, r | q in t.procs && r in t.procs && q != r
      ensures Produces(files, t.procs[q].want) || Produces(files, t.procs[r].want)
    {
      assert !LeavesTwoOut(s, files, p, q, r);
    }
  }

  lemma LackingBuild(s: State, files: seq<(Ext, Bytes)>, p: Pid, q: Pid, r: Pid, outputs: Outputs) returns (t: State)
    requires Initial(s) && files in outputs && DistinctExts(files) && LeavesTwoOut(s, files, p, q, r)
    ensures Leads(s, t, outputs) && !OneBuilder(t)
  {
    InitialIsSound(s);
    LeadsNowhere(s, outputs);
    t := OpensLock(s, s, p, outputs);
    ghost var first := t;
    t := OpensLock(s, t, q, outputs);
    assert t.procs[p] == first.procs[p] && t.procs[r] == s.procs[r];
    ghost var both := t;
    t := Builds(s, t, p, files, outputs);
    ghost var built := t;
    assert t.procs[q] == both.procs[q] && t.procs[r] == both.procs[r];
    t := StoresRest(s, t, p, outputs);
    assert t.procs[q] == built.procs[q] && t.procs[r] == built.procs[r];
    t := UnlinkedMeanwhile(s, t, p, q, r, outputs);
  }

  lemma Builds(s: State, t: State, p: Pid, files: seq<(Ext, Bytes)>, outputs: Outputs) returns (t': State)
    requires Reached(s, t, outputs) && p in t.procs && t.procs[p].pc.Waiting? && t.procs[p].pc.inode !in t.held
    requires t.procs[p].want !in t.entries && files in outputs && DistinctExts(files) &&
      Produces(files, t.procs[p].want)
    ensures Reached(s, t', outputs) && OthersAsIn(t, t', {p}) && t'.entries == t.entries
    ensures t'.procs[p].pc.Storing? && t'.procs[p].pc.todo == files
  {
    t' := Then(s, t, Acquire(p), outputs);
    t' := Then(s, t', LookAgain(p), outputs);
    t' := Then(s, t', FinishBuild(p, files), outputs);
  }

  /** For instance when a build may give no more than the file its own process wants. */
  lemma DifferentFilesBreakExclusion(s: State, e: Ext, p: Pid, q: Pid, r: Pid, outputs: Outputs) returns (t: State)
    requires Initial(s) && {p, q, r} <= s.procs.Keys && q != r
    requires s.procs[p].want == e && s.procs[q].want != e && s.procs[r].want != e && [(e, [])] in outputs
    ensures Leads(s, t, outputs) && !OneBuilder(t)
  {
    var files: seq<(Ext, Bytes)> := [(e, [])];
    assert files[0].0 == e;
    t := LackingBuild(s, files, p, q, r, outputs);
  }

  // ---- which collections --------------------------------------------------

  /** With two processes yet to look that want `e`, its collection lets two build at once if and only if it is not
      safe. */
  lemma CollectIsSafeExactly(s: State, e: Ext, q: Pid, r: Pid, outputs: Outputs)
    requires LocksMatch(s) && OnlyComplete(s) && Protocol(s) && FewLeftOut(s, outputs) && e in s.entries
    requires {q, r} <= s.procs.Keys && q != r && s.procs[q] == Proc(e, Look) && s.procs[r] == Proc(e, Look)
    ensures SafeToCollect(s, e) <==> forall t :: Leads(Next(s, Collect(e)), t, outputs) ==> OneBuilder(t)
  {
    var s' := Next(s, Collect(e));
    StepKeepsLocks(s, Collect(e));
    StepKeepsComplete(s, Collect(e));
    if SafeToCollect(s, e) {
      StepKeepsProtocol(s, Collect(e));
      assert forall files, p, q, r :: LeavesTwoOut(s', files, p, q, r) ==> LeavesTwoOut(s, files, p, q, r);
      forall t | Leads(s', t, outputs) ensures OneBuilder(t) {
        FewLeftOutExcludes(s', t, outputs);
      }
    } else {
      var p :| p in s.procs && !SafeAt(s, e, p);
      var t := UnsafeCollect(s', e, p, q, r, outputs);
    }
  }

  /** After the collection: `p` stores without `e`, or may yet build under another lock than the present. */
  lemma UnsafeCollect(s: State, e: Ext, p: Pid, q: Pid, r: Pid, outputs: Outputs) returns (t: State)
    requires LocksMatch(s) && OnlyComplete(s) && e !in s.entries && {p, q, r} <= s.procs.Keys && q != r
    requires s.procs[q] == Proc(e, Look) && s.procs[r] == Proc(e, Look) && !SafeAt(s, e, p)
    ensures Leads(s, t, outputs) && !OneBuilder(t)
  {
    LeadsNowhere(s, outputs);
    var pc := s.procs[p].pc;
    assert LockMatches(s, p);
    if pc.Storing? && !Produces(pc.todo, e) {
      t := StoresWithout(s, e, p, q, r, outputs);
    } else {
      t := OpensLock(s, s, q, outputs);
      assert t.procs[p] == s.procs[p] && t.procs[q].pc.inode != pc.inode;
      t := BuildsUnderOther(s, t, p, q, outputs);
    }
  }

  lemma StoresWithout(s: State, e: Ext, p: Pid, q: Pid, r: Pid, outputs: Outputs) returns (t: State)
    requires LocksMatch(s) && OnlyComplete(s) && e !in s.entries && {p, q, r} <= s.procs.Keys && q != r
    requires s.procs[q] == Proc(e, Look) && s.procs[r] == Proc(e, Look)
    requires s.procs[p].pc.Storing? && !Produces(s.procs[p].pc.todo, e)
    ensures Leads(s, t, outputs) && !OneBuilder(t)
  {
    LeadsNowhere(s, outputs);
    t := StoresRest(s, s, p, outputs);
    ghost var stored := t;
    t := OpensLock(s, t, q, outputs);
    assert t.procs[p] == stored.procs[p] && t.procs[r] == s.procs[r];
    t := UnlinkedMeanwhile(s, t, p, q, r, outputs);
  }

  lemma BuildsUnderOther(s: State, t: State, p: Pid, q: Pid, outputs: Outputs) returns (t': State)
    requires Reached(s, t, outputs) && {p, q} <= t.procs.Keys && p != q
    requires t.procs[q].pc.Waiting? && Lacks(t, q)
    requires Claims(t.procs[p].pc) && Pending(t, p) && t.procs[p].pc.inode != t.procs[q].pc.inode
    ensures Leads(s, t', outputs) && !OneBuilder(t')
  {
    t' := t;
    if t.procs[p].pc.Recheck? {
      t' := Then(s, t, LookAgain(p), outputs);
      assert t'.procs[q] == t.procs[q] && t'.procs[p].pc == Building(t.procs[p].pc.inode);
    }
    t' := TwoBuild(s, t', q, p, outputs);
  }

  /** In particular between the publication and the unlink: collecting the file there lets two processes build at
      once. */
  lemma CollectionBreaksExclusion(s: State, e: Ext, p: Pid, q: Pid, r: Pid, outputs: Outputs)
    requires LocksMatch(s) && OnlyComplete(s) && Protocol(s) && FewLeftOut(s, outputs) && e in s.entries
    requires {p, q, r} <= s.procs.Keys && q != r && s.procs[q] == Proc(e, Look) && s.procs[r] == Proc(e, Look)
    requires s.procs[p].pc.Storing? && s.procs[p].pc.todo == []
    ensures exists t :: Leads(Next(s, Collect(e)), t, outputs) && !OneBuilder(t)
  {
    assert !SafeAt(s, e, p);
    CollectIsSafeExactly(s, e, q, r, outputs);
  }
}
