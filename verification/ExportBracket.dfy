/**
 The agent's export: stale objects are cleared, a datastore, a remote and a sync job are created,
 the job is run, and whatever was created is removed again on every exit.
 */
module ExportBracket {
  import opened Wrappers

  datatype Job = Job(remote: string, store: string)

  /** What PBS holds: datastores by name with their path, remotes, sync jobs by name. */
  datatype Pbs = Pbs(stores: map<string, string>, remotes: set<string>, jobs: map<string, Job>)

  /** How a command ends: what it reports, and whether it nevertheless did its work. */
  datatype Reply = Done | Refused | RefusedAfterEffect | Raised | RaisedAfterEffect {
    predicate Effective() { Done? || RefusedAfterEffect? || RaisedAfterEffect? }

    predicate Raises() { Raised? || RaisedAfterEffect? }

    predicate Honest() { Done? || Refused? || Raised? }
  }

  const SYNC_PREFIX := "pbo-export-sync-"
  const REMOTE_PREFIX := "pbo-export-remote-"
  const STORE_PREFIX := "pbo-export-store-"

  predicate PboJob(name: string) { SYNC_PREFIX <= name }

  predicate PboRemote(name: string) { REMOTE_PREFIX <= name }

  /** The suffixes are the hashes the names are built from. */
  datatype Request = Request(source: string, target: string, targetStore: Option<string>, persist: bool,
                             syncHash: string, remoteHash: string, storeHash: string)

  /** Every answer the environment gives during one export. */
  datatype Oracle = Oracle(
    storeNames: Option<seq<string>>, jobNames: Option<seq<string>>, remoteNames: Option<seq<string>>,
    jobRunning: string -> bool, staleJob: string -> Reply, lockRemoved: string -> bool, staleRemote: string -> Reply,
    createStore: Reply, createRemote: Reply, createJob: Reply, runJob: Reply,
    removeJob: Reply, removeRemote: Reply, removeStore: Reply)

  /** A listing that succeeds names exactly what there is. */
  ghost predicate Truthful(s: Pbs, o: Oracle) {
    && (o.storeNames.Some? ==> forall n :: n in o.storeNames.value <==> n in s.stores)
    && (o.jobNames.Some? ==> forall n :: n in o.jobNames.value <==> n in s.jobs)
    && (o.remoteNames.Some? ==> forall n :: n in o.remoteNames.value <==> n in s.remotes)
  }

  function SyncName(q: Request): string { SYNC_PREFIX + q.syncHash }

  function RemoteName(q: Request): string { REMOTE_PREFIX + q.remoteHash }

  function FindByPath(names: seq<string>, stores: map<string, string>, path: string): (r: Option<string>)
    ensures r.Some? ==> r.value in stores && stores[r.value] == path
    ensures r.None? ==> forall n :: n in names && n in stores ==> stores[n] != path
  {
    if names == [] then None
    else if names[0] in stores && stores[names[0]] == path then Some(names[0])
    else FindByPath(names[1..], stores, path)
  }

  function TargetStore(q: Request, existing: Option<string>): string {
    if existing.Some? then existing.value
    else if q.targetStore.Some? then q.targetStore.value
    else STORE_PREFIX + q.storeHash
  }

  // ----- commands -----

  /** Creating a name that is taken is refused. */
  function Actual(reply: Reply, taken: bool): Reply {
    if !taken then reply else if reply.Raises() then Raised else Refused
  }

  function AddStore(s: Pbs, name: string, path: string, reply: Reply): Pbs {
    if Actual(reply, name in s.stores).Effective() then s.(stores := s.stores[name := path]) else s
  }

  function AddRemote(s: Pbs, name: string, reply: Reply): Pbs {
    if Actual(reply, name in s.remotes).Effective() then s.(remotes := s.remotes + {name}) else s
  }

  function AddJob(s: Pbs, name: string, job: Job, reply: Reply): Pbs {
    if Actual(reply, name in s.jobs).Effective() then s.(jobs := s.jobs[name := job]) else s
  }

  function DropStore(s: Pbs, name: string, reply: Reply): Pbs {
    if reply.Effective() then s.(stores := s.stores - {name}) else s
  }

  function DropRemote(s: Pbs, name: string, reply: Reply): Pbs {
    if reply.Effective() then s.(remotes := s.remotes - {name}) else s
  }

  function DropJob(s: Pbs, name: string, reply: Reply): Pbs {
    if reply.Effective() then s.(jobs := s.jobs - {name}) else s
  }

  // ----- the specification: the states PBS goes through -----

  /** States passed through so far, the last one current, and whether an exception is on its way. */
  datatype Course = Course(states: seq<Pbs>, raised: bool) {
    predicate Valid() { states != [] }

    function Now(): Pbs
      requires Valid()
    {
      states[|states| - 1]
    }

    function Then(s: Pbs, raises: bool): (c: Course)
      ensures c.Valid() && c.Now() == s
    {
      Course(states + [s], raises)
    }
  }

  function ClearJobs(c: Course, names: seq<string>, o: Oracle): (r: Course)
    requires c.Valid()
    ensures r.Valid() && c.states <= r.states
    decreases |names|
  {
    if names == [] || c.raised then c
    else
      var n := names[0];
      var next :=
        if !PboJob(n) then c
        else if o.jobRunning(n) then c.(raised := true)
        else c.Then(DropJob(c.Now(), n, o.staleJob(n)), !o.staleJob(n).Done? || !o.lockRemoved(n));
      ClearJobs(next, names[1..], o)
  }

  function ClearRemotes(c: Course, names: seq<string>, o: Oracle): (r: Course)
    requires c.Valid()
    ensures r.Valid() && c.states <= r.states
    decreases |names|
  {
    if names == [] || c.raised then c
    else
      var n := names[0];
      var next := if !PboRemote(n) then c
                  else c.Then(DropRemote(c.Now(), n, o.staleRemote(n)), !o.staleRemote(n).Done?);
      ClearRemotes(next, names[1..], o)
  }

  function ClearStale(s: Pbs, o: Oracle): (c: Course)
    ensures c.Valid() && [s] <= c.states
  {
    var start := Course([s], false);
    if o.jobNames.None? then start.(raised := true)
    else
      var jobs := ClearJobs(start, o.jobNames.value, o);
      if jobs.raised || o.remoteNames.None? then jobs.(raised := true)
      else ClearRemotes(jobs, o.remoteNames.value, o)
  }

  /** The try block: what was created by a command that reported success, and whether the sync ran. */
  datatype Made = Made(course: Course, store: bool, remote: bool, job: bool)

  function StoreStage(c: Course, q: Request, existing: Option<string>, o: Oracle): (m: Made)
    requires c.Valid()
    ensures m.course.Valid()
  {
    if existing.Some? then Made(c, false, false, false)
    else
      var name := TargetStore(q, None);
      var ok := Actual(o.createStore, name in c.Now().stores).Done?;
      Made(c.Then(AddStore(c.Now(), name, q.target, o.createStore), !ok), ok, false, false)
  }

  function RemoteStage(m: Made, q: Request, o: Oracle): (r: Made)
    requires m.course.Valid()
    ensures r.course.Valid()
  {
    if m.course.raised then m
    else
      var s := m.course.Now();
      var ok := Actual(o.createRemote, RemoteName(q) in s.remotes).Done?;
      m.(course := m.course.Then(AddRemote(s, RemoteName(q), o.createRemote), !ok), remote := ok)
  }

  function JobStage(m: Made, q: Request, store: string, o: Oracle): (r: Made)
    requires m.course.Valid()
    ensures r.course.Valid()
  {
    if m.course.raised then m
    else
      var s := m.course.Now();
      var ok := Actual(o.createJob, SyncName(q) in s.jobs).Done?;
      var next := AddJob(s, SyncName(q), Job(RemoteName(q), store), o.createJob);
      m.(course := m.course.Then(next, !ok || !o.runJob.Done?), job := ok)
  }

  function Create(c: Course, q: Request, existing: Option<string>, o: Oracle): (m: Made)
    requires c.Valid()
    ensures m.course.Valid()
  {
    JobStage(RemoteStage(StoreStage(c, q, existing, o), q, o), q, TargetStore(q, existing), o)
  }

  /** One removal of the finally block: skipped if not wanted or if an earlier one raised. */
  datatype Exit = Exit(course: Course, cut: bool)

  function RemoveStage(e: Exit, wanted: bool, next: Pbs, reply: Reply): (r: Exit)
    requires e.course.Valid()
    ensures r.course.Valid()
  {
    if !wanted || e.cut then e
    else Exit(e.course.Then(next, e.course.raised || reply.Raises()), reply.Raises())
  }

  /** The finally block: removals in reverse order; a refused removal is only noted, a raised one ends it. */
  function Remove(m: Made, q: Request, existing: Option<string>, o: Oracle): (c: Course)
    requires m.course.Valid()
    ensures c.Valid()
  {
    var e0 := Exit(m.course, false);
    var e1 := RemoveStage(e0, m.job, DropJob(e0.course.Now(), SyncName(q), o.removeJob), o.removeJob);
    var e2 := RemoveStage(e1, m.remote, DropRemote(e1.course.Now(), RemoteName(q), o.removeRemote), o.removeRemote);
    RemoveStage(e2, m.store && !q.persist,
                DropStore(e2.course.Now(), TargetStore(q, existing), o.removeStore), o.removeStore).course
  }

  /** The whole call. */
  function Export(s: Pbs, q: Request, o: Oracle): (c: Course)
    ensures c.Valid()
  {
    if o.storeNames.None? || q.source !in o.storeNames.value then Course([s], true)
    else
      var existing := FindByPath(o.storeNames.value, s.stores, q.target);
      var stale := ClearStale(s, o);
      if stale.raised then stale
      else Remove(Create(stale, q, existing, o), q, existing, o)
  }

  // ----- the agent -----

  class PbsHost {
    var stores: map<string, string>
    var remotes: set<string>
    var jobs: map<string, Job>
    ghost var states: seq<Pbs>

    function Snapshot(): Pbs
      reads this
    {
      Pbs(stores, remotes, jobs)
    }

    ghost predicate On(c: Course)
      reads this
    {
      c.Valid() && states == c.states && Snapshot() == c.Now()
    }

    method ClearStaleJobs(names: seq<string>, o: Oracle, ghost c0: Course) returns (raised: bool)
      requires On(c0) && !c0.raised
      modifies this
      ensures On(ClearJobs(c0, names, o)) && raised == ClearJobs(c0, names, o).raised
    {
      ghost var c := c0;
      for i := 0 to |names|
        invariant On(c) && !c.raised
        invariant ClearJobs(c, names[i..], o) == ClearJobs(c0, names, o)
      {
        var n := names[i];
        assert names[i..][0] == n && names[i..][1..] == names[i + 1..];
        if PboJob(n) {
          if o.jobRunning(n) {
            return true;
          }
          var reply := o.staleJob(n);
          c := c.Then(DropJob(Snapshot(), n, reply), !reply.Done? || !o.lockRemoved(n));
          if reply.Effective() {
            jobs := jobs - {n};
          }
          states := states + [Snapshot()];
          if !reply.Done? || !o.lockRemoved(n) {
            return true;
          }
        }
      }
      return false;
    }

    method ClearStaleRemotes(names: seq<string>, o: Oracle, ghost c0: Course) returns (raised: bool)
      requires On(c0) && !c0.raised
      modifies this
      ensures On(ClearRemotes(c0, names, o)) && raised == ClearRemotes(c0, names, o).raised
    {
      ghost var c := c0;
      for i := 0 to |names|
        invariant On(c) && !c.raised
        invariant ClearRemotes(c, names[i..], o) == ClearRemotes(c0, names, o)
      {
        var n := names[i];
        assert names[i..][0] == n && names[i..][1..] == names[i + 1..];
        if PboRemote(n) {
          var reply := o.staleRemote(n);
          c := c.Then(DropRemote(Snapshot(), n, reply), !reply.Done?);
          if reply.Effective() {
            remotes := remotes - {n};
          }
          states := states + [Snapshot()];
          if !reply.Done? {
            return true;
          }
        }
      }
      return false;
    }

    method ClearStaleObjects(o: Oracle) returns (raised: bool)
      requires states == [Snapshot()]
      modifies this
      ensures raised == ClearStale(old(Snapshot()), o).raised
      ensures On(ClearStale(old(Snapshot()), o))
    {
      if o.jobNames.None? {
        return true;
      }
      ghost var start := Course(states, false);
      raised := ClearStaleJobs(o.jobNames.value, o, start);
      if raised || o.remoteNames.None? {
        return true;
      }
      raised := ClearStaleRemotes(o.remoteNames.value, o, ClearJobs(start, o.jobNames.value, o));
    }

    /** The try block, as a sequence of commands that set their flags only when they report success. */
    method CreateAndSync(q: Request, existing: Option<string>, o: Oracle, ghost c: Course)
      returns (store: bool, remote: bool, job: bool, raised: bool)
      requires On(c) && !c.raised
      modifies this
      ensures var m := Create(c, q, existing, o);
              On(m.course) && Made(m.course, store, remote, job) == m && raised == m.course.raised
    {
      store, remote, job := false, false, false;
      var storeName := TargetStore(q, existing);
      if existing.None? {
        var reply := Actual(o.createStore, storeName in stores);
        if reply.Effective() {
          stores := stores[storeName := q.target];
        }
        states := states + [Snapshot()];
        if !reply.Done? {
          return store, remote, job, true;
        }
        store := true;
      }
      var reply := Actual(o.createRemote, RemoteName(q) in remotes);
      if reply.Effective() {
        remotes := remotes + {RemoteName(q)};
      }
      states := states + [Snapshot()];
      if !reply.Done? {
        return store, remote, job, true;
      }
      remote := true;
      reply := Actual(o.createJob, SyncName(q) in jobs);
      if reply.Effective() {
        jobs := jobs[SyncName(q) := Job(RemoteName(q), storeName)];
      }
      states := states + [Snapshot()];
      if !reply.Done? {
        return store, remote, job, true;
      }
      job := true;
      return store, remote, job, !o.runJob.Done?;
    }

    method CleanupJob(name: string, reply: Reply, ghost e: Exit) returns (raised: bool)
      requires On(e.course) && !e.cut
      modifies this
      ensures var next := RemoveStage(e, true, DropJob(old(Snapshot()), name, reply), reply);
              On(next.course) && raised == next.cut
    {
      if reply.Effective() {
        jobs := jobs - {name};
      }
      states := states + [Snapshot()];
      raised := reply.Raises();
    }

    method CleanupRemote(name: string, reply: Reply, ghost e: Exit) returns (raised: bool)
      requires On(e.course) && !e.cut
      modifies this
      ensures var next := RemoveStage(e, true, DropRemote(old(Snapshot()), name, reply), reply);
              On(next.course) && raised == next.cut
    {
      if reply.Effective() {
        remotes := remotes - {name};
      }
      states := states + [Snapshot()];
      raised := reply.Raises();
    }

    method CleanupStore(name: string, reply: Reply, ghost e: Exit) returns (raised: bool)
      requires On(e.course) && !e.cut
      modifies this
      ensures var next := RemoveStage(e, true, DropStore(old(Snapshot()), name, reply), reply);
              On(next.course) && raised == next.cut
    {
      if reply.Effective() {
        stores := stores - {name};
      }
      states := states + [Snapshot()];
      raised := reply.Raises();
    }

    /** The finally block: a cleanup command that raises skips the ones after it. */
    method RemoveCreated(q: Request, existing: Option<string>, o: Oracle, ghost m: Made, job: bool, remote: bool,
                         store: bool, pending: bool)
      returns (raised: bool)
      requires On(m.course) && m == Made(m.course, store, remote, job) && pending == m.course.raised
      modifies this
      ensures On(Remove(m, q, existing, o)) && raised == Remove(m, q, existing, o).raised
    {
      ghost var e0 := Exit(m.course, false);
      ghost var e1 := RemoveStage(e0, job, DropJob(Snapshot(), SyncName(q), o.removeJob), o.removeJob);
      raised := pending;
      if job {
        var cut := CleanupJob(SyncName(q), o.removeJob, e0);
        if cut {
          return true;
        }
      }
      ghost var e2 := RemoveStage(e1, remote, DropRemote(Snapshot(), RemoteName(q), o.removeRemote), o.removeRemote);
      if remote {
        var cut := CleanupRemote(RemoteName(q), o.removeRemote, e1);
        if cut {
          return true;
        }
      }
      if store && !q.persist {
        var cut := CleanupStore(TargetStore(q, existing), o.removeStore, e2);
        raised := raised || cut;
      }
    }

    method RunExternalExport(q: Request, o: Oracle) returns (raised: bool)
      requires states == [Snapshot()]
      modifies this
      ensures On(Export(old(Snapshot()), q, o)) && raised == Export(old(Snapshot()), q, o).raised
      ensures Truthful(old(Snapshot()), o) ==> (raised <==> !GoesWell(old(Snapshot()), q, o))
    {
      if Truthful(Snapshot(), o) {
        RaisesIff(Snapshot(), q, o);
      }
      hide Truthful, GoesWell;
      if o.storeNames.None? || q.source !in o.storeNames.value {
        return true;
      }
      var existing := FindByPath(o.storeNames.value, stores, q.target);
      ghost var stale := ClearStale(Snapshot(), o);
      raised := ClearStaleObjects(o);
      if raised {
        return;
      }
      ghost var made := Create(stale, q, existing, o);
      var store, remote, job, failed := CreateAndSync(q, existing, o, stale);
      raised := RemoveCreated(q, existing, o, made, job, remote, store, failed);
    }
  }

  // ----- what every exit leaves behind -----

  /** No PBO sync job names a remote or a datastore that does not exist. */
  ghost predicate NoDangling(s: Pbs) {
    forall n :: n in s.jobs && PboJob(n) ==> s.jobs[n].remote in s.remotes && s.jobs[n].store in s.stores
  }

  ghost predicate NeverDangles(c: Course) {
    forall i :: 0 <= i < |c.states| ==> NoDangling(c.states[i])
  }

  /** Only PBO jobs and remotes went missing. */
  ghost predicate OthersKept(s: Pbs, t: Pbs) {
    && (forall n :: n in s.jobs && !PboJob(n) ==> n in t.jobs && t.jobs[n] == s.jobs[n])
    && (forall n :: n in t.jobs && !PboJob(n) ==> n in s.jobs)
    && (forall n :: !PboRemote(n) ==> (n in s.remotes <==> n in t.remotes))
  }

  ghost predicate NoPboJobs(s: Pbs) {
    forall n :: n in s.jobs ==> !PboJob(n)
  }

  ghost predicate NoPboRemotes(s: Pbs) {
    forall n :: n in s.remotes ==> !PboRemote(n)
  }

  lemma {:induction false} ClearJobsEffect(c: Course, names: seq<string>, o: Oracle)
    requires c.Valid()
    ensures var r := ClearJobs(c, names, o);
            && (NeverDangles(c) ==> NeverDangles(r)) && OthersKept(c.Now(), r.Now())
            && r.Now().stores == c.Now().stores && r.Now().remotes == c.Now().remotes
            && r.Now().jobs.Keys <= c.Now().jobs.Keys
            && (!r.raised ==> forall n :: n in names && PboJob(n) ==> n !in r.Now().jobs)
    decreases |names|
  {
    if names != [] && !c.raised {
      var n := names[0];
      assert names == [n] + names[1..];
      if PboJob(n) && !o.jobRunning(n) {
        var next := c.Then(DropJob(c.Now(), n, o.staleJob(n)), !o.staleJob(n).Done? || !o.lockRemoved(n));
        ClearJobsEffect(next, names[1..], o);
      } else if !PboJob(n) {
        ClearJobsEffect(c, names[1..], o);
      } else {
        ClearJobsEffect(c.(raised := true), names[1..], o);
      }
    }
  }

  lemma {:induction false} ClearRemotesEffect(c: Course, names: seq<string>, o: Oracle)
    requires c.Valid() && NoPboJobs(c.Now())
    ensures var r := ClearRemotes(c, names, o);
            && (NeverDangles(c) ==> NeverDangles(r)) && OthersKept(c.Now(), r.Now())
            && r.Now().stores == c.Now().stores && r.Now().jobs == c.Now().jobs
            && r.Now().remotes <= c.Now().remotes
            && (!r.raised ==> forall n :: n in names && PboRemote(n) ==> n !in r.Now().remotes)
    decreases |names|
  {
    if names != [] && !c.raised {
      var n := names[0];
      assert names == [n] + names[1..];
      var next := if !PboRemote(n) then c
                  else c.Then(DropRemote(c.Now(), n, o.staleRemote(n)), !o.staleRemote(n).Done?);
      ClearRemotesEffect(next, names[1..], o);
    }
  }

  /**
   Whatever an earlier export left behind, nothing stale is left when the cleanup passes; and if no job was
   dangling at the start, the cleanup never makes one dangle.
   */
  lemma ClearStaleEffect(s: Pbs, o: Oracle)
    requires Truthful(s, o)
    ensures var c := ClearStale(s, o);
            && OthersKept(s, c.Now()) && c.Now().stores == s.stores
            && (!c.raised ==> NoPboJobs(c.Now()) && NoPboRemotes(c.Now()))
            && (NoDangling(s) ==> NeverDangles(c))
  {
    var start := Course([s], false);
    if o.jobNames.Some? {
      ClearJobsEffect(start, o.jobNames.value, o);
      var jobs := ClearJobs(start, o.jobNames.value, o);
      if !jobs.raised && o.remoteNames.Some? {
        ClearRemotesEffect(jobs, o.remoteNames.value, o);
      }
    }
  }

  /** The job was created while its creation, or its removal, went unreported. */
  predicate JobLeftBehind(o: Oracle) {
    o.createJob.Effective() && (o.createJob.Done? ==> !o.removeJob.Effective() && !o.removeJob.Raises())
  }

  /** The remote of that job, or its target datastore, was removed all the same. */
  predicate Pulled(q: Request, existing: Option<string>, o: Oracle) {
    || o.removeRemote.Effective()
    || (!o.removeRemote.Raises() && existing.None? && !q.persist && o.removeStore.Effective())
  }

  ghost predicate PastCleanup(s: Pbs, q: Request, o: Oracle) {
    o.storeNames.Some? && q.source in o.storeNames.value && !ClearStale(s, o).raised
  }

  /** The target, remote and job creations were all attempted. */
  ghost predicate JobAttempted(s: Pbs, q: Request, existing: Option<string>, o: Oracle) {
    && (existing.None? ==> o.createStore.Done? && TargetStore(q, existing) !in s.stores)
    && o.createRemote.Done?
  }

  lemma PrefixesApply(q: Request)
    ensures PboJob(SyncName(q)) && PboRemote(RemoteName(q))
  {
  }

  /**
   For every outcome of every command: some state of the export has a PBO sync job without its remote or
   datastore exactly when one was found like that or a job was left behind and what it names was pulled away.
   */
  lemma DanglesIff(s: Pbs, q: Request, o: Oracle)
    requires Truthful(s, o)
    ensures NeverDangles(Export(s, q, o)) <==>
            NoDangling(s)
            && !(PastCleanup(s, q, o)
                 && var existing := FindByPath(o.storeNames.value, s.stores, q.target);
                    JobAttempted(s, q, existing, o) && JobLeftBehind(o) && Pulled(q, existing, o))
  {
    if !NoDangling(s) {
      StartsAsFound(s, q, o);
      assert Export(s, q, o).states[0] == s;
    } else if o.storeNames.Some? && q.source in o.storeNames.value {
      ClearStaleEffect(s, o);
      var stale := ClearStale(s, o);
      if !stale.raised {
        BracketDangles(stale, q, FindByPath(o.storeNames.value, s.stores, q.target), o);
      }
    }
  }

  /** The first state is the one the export finds. */
  lemma StartsAsFound(s: Pbs, q: Request, o: Oracle)
    ensures [s] <= Export(s, q, o).states
  {
    hide ClearStale, DropJob, DropRemote, DropStore, AddStore, AddRemote, AddJob;
  }

  lemma BracketDangles(c: Course, q: Request, existing: Option<string>, o: Oracle)
    requires c.Valid() && !c.raised && NeverDangles(c) && NoPboJobs(c.Now()) && NoPboRemotes(c.Now())
    requires existing.Some? ==> existing.value in c.Now().stores
    ensures NeverDangles(Remove(Create(c, q, existing, o), q, existing, o)) <==>
            !(JobAttempted(c.Now(), q, existing, o) && JobLeftBehind(o) && Pulled(q, existing, o))
  {
    PrefixesApply(q);
    var m := Create(c, q, existing, o);
    CreateNeverDangles(c, q, existing, o);
    RemoveDangles(m, q, existing, o);
  }

  lemma CreateNeverDangles(c: Course, q: Request, existing: Option<string>, o: Oracle)
    requires c.Valid() && !c.raised && NeverDangles(c) && NoPboJobs(c.Now()) && NoPboRemotes(c.Now())
    requires existing.Some? ==> existing.value in c.Now().stores
    ensures var m := Create(c, q, existing, o);
            var s := m.course.Now();
            && NeverDangles(m.course)
            && (forall n :: n in s.jobs && PboJob(n) ==> n == SyncName(q))
            && (SyncName(q) in s.jobs <==> JobAttempted(c.Now(), q, existing, o) && o.createJob.Effective())
            && (SyncName(q) in s.jobs ==> s.jobs[SyncName(q)] == Job(RemoteName(q), TargetStore(q, existing)))
            && (m.job <==> JobAttempted(c.Now(), q, existing, o) && o.createJob.Done?)
            && (JobAttempted(c.Now(), q, existing, o) ==> m.remote && m.store == existing.None?)
  {
    PrefixesApply(q);
    var s, store := c.Now(), TargetStore(q, existing);
    var m1 := StoreStage(c, q, existing, o);
    assert NeverDangles(m1.course) && m1.course.Now().jobs == s.jobs && m1.course.Now().remotes == s.remotes;
    assert !m1.course.raised ==> store in m1.course.Now().stores && m1.store == existing.None?;
    assert !m1.course.raised <==> (existing.None? ==> o.createStore.Done? && store !in s.stores);
    hide StoreStage;
    var m2 := RemoteStage(m1, q, o);
    assert NeverDangles(m2.course) && m2.course.Now().jobs == s.jobs && !m2.job;
    assert !m2.course.raised <==> JobAttempted(s, q, existing, o);
    assert !m2.course.raised ==> RemoteName(q) in m2.course.Now().remotes && store in m2.course.Now().stores
                                 && m2.remote && m2.store == existing.None?;
    hide RemoteStage, JobAttempted;
    var m3 := JobStage(m2, q, store, o);
    assert NeverDangles(m3.course);
  }

  lemma RemoveDangles(m: Made, q: Request, existing: Option<string>, o: Oracle)
    requires m.course.Valid() && NeverDangles(m.course)
    requires var s := m.course.Now();
             && (forall n :: n in s.jobs && PboJob(n) ==> n == SyncName(q))
             && (SyncName(q) in s.jobs ==> m.remote && m.store == existing.None?)
             && (m.job ==> SyncName(q) in s.jobs && o.createJob.Done?)
             && (SyncName(q) in s.jobs ==> s.jobs[SyncName(q)] == Job(RemoteName(q), TargetStore(q, existing))
                                           && o.createJob.Effective() && (m.job <==> o.createJob.Done?))
    ensures NeverDangles(Remove(m, q, existing, o)) <==>
            !(SyncName(q) in m.course.Now().jobs && JobLeftBehind(o) && Pulled(q, existing, o))
  {
    PrefixesApply(q);
  }

  /**
   If failed creations make nothing and removals succeed, every exit past the stale cleanup leaves no
   PBO job or remote, nothing else touched, and the old datastores plus the target exactly when it
   was created to persist.
   */
  lemma ExitIsClean(s: Pbs, q: Request, o: Oracle)
    requires Truthful(s, o) && PastCleanup(s, q, o)
    requires o.createStore.Honest() && o.createRemote.Honest() && o.createJob.Honest()
    requires o.removeJob.Done? && o.removeRemote.Done? && o.removeStore.Done?
    ensures var c := Export(s, q, o);
            var existing := FindByPath(o.storeNames.value, s.stores, q.target);
            var name := TargetStore(q, existing);
            && NoPboJobs(c.Now()) && NoPboRemotes(c.Now()) && OthersKept(s, c.Now())
            && NoDangling(c.Now()) && (NoDangling(s) ==> NeverDangles(c))
            && c.Now().stores == (if existing.None? && name !in s.stores && o.createStore.Done? && q.persist
                                  then s.stores[name := q.target] else s.stores)
  {
    DanglesIff(s, q, o);
    ClearStaleEffect(s, o);
    BracketRestores(ClearStale(s, o), q, FindByPath(o.storeNames.value, s.stores, q.target), o);
  }

  lemma BracketRestores(c: Course, q: Request, existing: Option<string>, o: Oracle)
    requires c.Valid() && !c.raised && NoPboJobs(c.Now()) && NoPboRemotes(c.Now())
    requires o.createStore.Honest() && o.createRemote.Honest() && o.createJob.Honest()
    requires o.removeJob.Done? && o.removeRemote.Done? && o.removeStore.Done?
    ensures var t := Remove(Create(c, q, existing, o), q, existing, o).Now();
            var s, name := c.Now(), TargetStore(q, existing);
            && t.jobs == s.jobs && t.remotes == s.remotes
            && t.stores == (if existing.None? && name !in s.stores && o.createStore.Done? && q.persist
                            then s.stores[name := q.target] else s.stores)
  {
    PrefixesApply(q);
    var s, name := c.Now(), TargetStore(q, existing);
    var m1 := StoreStage(c, q, existing, o);
    var t := m1.course.Now().stores;
    assert m1.course.Now().jobs == s.jobs && m1.course.Now().remotes == s.remotes;
    assert if m1.store
           then existing.None? && name !in s.stores && o.createStore.Done? && t == s.stores[name := q.target]
           else t == s.stores && !(existing.None? && name !in s.stores && o.createStore.Done?);
    assert m1.store ==> t - {name} == s.stores;
    hide StoreStage;
    var m2 := RemoteStage(m1, q, o);
    assert m2.course.Now().jobs == s.jobs && m2.course.Now().stores == t && m2.store == m1.store && !m2.job;
    assert m2.course.Now().remotes == if m2.remote then s.remotes + {RemoteName(q)} else s.remotes;
    assert s.remotes + {RemoteName(q)} - {RemoteName(q)} == s.remotes;
    hide RemoteStage;
    var m3 := JobStage(m2, q, name, o);
    var added := s.jobs[SyncName(q) := Job(RemoteName(q), name)];
    assert added - {SyncName(q)} == s.jobs;
    assert m3.course.Now().jobs == if m3.job then added else s.jobs;
    hide JobStage;
  }

  // ----- what the answer means -----

  /** Nothing stale is in the way: no such job runs, and every one and every such remote is removed as asked. */
  ghost predicate CleansUp(o: Oracle) {
    && o.jobNames.Some?
    && (forall n :: n in o.jobNames.value && "pbo-export-sync-" <= n ==>
          !o.jobRunning(n) && o.staleJob(n) == Done && o.lockRemoved(n))
    && o.remoteNames.Some?
    && (forall n :: n in o.remoteNames.value && "pbo-export-remote-" <= n ==> o.staleRemote(n) == Done)
  }

  /** A listed datastore has the target's path. */
  ghost predicate TargetExists(s: Pbs, q: Request, names: seq<string>) {
    exists n :: n in names && n in s.stores && s.stores[n] == q.target
  }

  /** The name a new target datastore gets: the one asked for, or one made from the hash. */
  function NewStore(q: Request): string {
    match q.targetStore case Some(name) => name case None => "pbo-export-store-" + q.storeHash
  }

  /** The target is there, or is made under a free name and, unless it is to stay, its removal does not raise. */
  ghost predicate TargetServes(s: Pbs, q: Request, o: Oracle)
    requires o.storeNames.Some?
  {
    || TargetExists(s, q, o.storeNames.value)
    || (o.createStore == Done && NewStore(q) !in s.stores && (q.persist || !o.removeStore.Raises()))
  }

  /** Every command that decides about the export went well. */
  ghost predicate GoesWell(s: Pbs, q: Request, o: Oracle) {
    && o.storeNames.Some? && q.source in o.storeNames.value
    && CleansUp(o) && TargetServes(s, q, o)
    && o.createRemote == Done && o.createJob == Done && o.runJob == Done
    && !o.removeJob.Raises() && !o.removeRemote.Raises()
  }

  lemma {:induction false} JobsClearedIff(c: Course, names: seq<string>, o: Oracle)
    requires c.Valid()
    ensures ClearJobs(c, names, o).raised <==>
            || c.raised
            || exists n :: n in names && PboJob(n) && (o.jobRunning(n) || o.staleJob(n) != Done || !o.lockRemoved(n))
    decreases |names|
  {
    if names != [] && !c.raised {
      var n := names[0];
      var next :=
        if !PboJob(n) then c
        else if o.jobRunning(n) then c.(raised := true)
        else c.Then(DropJob(c.Now(), n, o.staleJob(n)), !o.staleJob(n).Done? || !o.lockRemoved(n));
      assert names == [n] + names[1..];
      JobsClearedIff(next, names[1..], o);
      hide PboJob;
    }
  }

  lemma {:induction false} RemotesClearedIff(c: Course, names: seq<string>, o: Oracle)
    requires c.Valid()
    ensures ClearRemotes(c, names, o).raised <==>
            c.raised || exists n :: n in names && PboRemote(n) && o.staleRemote(n) != Done
    decreases |names|
  {
    if names != [] && !c.raised {
      var n := names[0];
      var next := if !PboRemote(n) then c
                  else c.Then(DropRemote(c.Now(), n, o.staleRemote(n)), !o.staleRemote(n).Done?);
      assert names == [n] + names[1..];
      RemotesClearedIff(next, names[1..], o);
      hide PboRemote;
    }
  }

  lemma CleansUpIff(s: Pbs, o: Oracle)
    ensures ClearStale(s, o).raised <==> !CleansUp(o)
  {
    var start := Course([s], false);
    if o.jobNames.Some? {
      JobsClearedIff(start, o.jobNames.value, o);
      if o.remoteNames.Some? {
        RemotesClearedIff(ClearJobs(start, o.jobNames.value, o), o.remoteNames.value, o);
      }
    }
    hide ClearJobs, ClearRemotes;
  }

  /** The bracket on a cleared PBS, where the names of job and remote are free. */
  lemma BracketRaisesIff(c: Course, q: Request, existing: Option<string>, o: Oracle)
    requires c.Valid() && !c.raised && NoPboJobs(c.Now()) && NoPboRemotes(c.Now())
    ensures Remove(Create(c, q, existing, o), q, existing, o).raised <==>
            !(&& (existing.Some?
                  || (o.createStore == Done && TargetStore(q, None) !in c.Now().stores
                      && (q.persist || !o.removeStore.Raises())))
              && o.createRemote == Done && o.createJob == Done && o.runJob == Done
              && !o.removeJob.Raises() && !o.removeRemote.Raises())
  {
    PrefixesApply(q);
    var s := c.Now();
    var m1 := StoreStage(c, q, existing, o);
    assert m1.course.Now().jobs == s.jobs && m1.course.Now().remotes == s.remotes;
    assert m1.course.raised <==>
           existing.None? && !(o.createStore == Done && TargetStore(q, None) !in s.stores);
    assert !m1.course.raised ==> m1.store == existing.None?;
    hide StoreStage, TargetStore;
    var m2 := RemoteStage(m1, q, o);
    assert m2.course.Now().jobs == s.jobs && m2.store == m1.store;
    assert m2.course.raised <==> m1.course.raised || o.createRemote != Done;
    assert !m2.course.raised ==> m2.remote;
    hide RemoteStage;
    var m3 := JobStage(m2, q, TargetStore(q, existing), o);
    assert m3.course.raised <==> m2.course.raised || o.createJob != Done || o.runJob != Done;
    assert !m3.course.raised ==> m3.job && m3.remote == m2.remote && m3.store == m2.store;
    hide JobStage;
    RemovalRaisesIff(m3, q, existing, o);
    hide Remove;
  }

  lemma RemovalRaisesIff(m: Made, q: Request, existing: Option<string>, o: Oracle)
    requires m.course.Valid()
    ensures m.course.raised ==> Remove(m, q, existing, o).raised
    ensures !m.course.raised && m.job && m.remote ==>
              (Remove(m, q, existing, o).raised <==>
               o.removeJob.Raises() || o.removeRemote.Raises() || (m.store && !q.persist && o.removeStore.Raises()))
  {
    hide DropJob, DropRemote, DropStore;
  }

  /** The target is found by its path exactly if a listed datastore has it. */
  lemma {:induction false} FoundIff(names: seq<string>, s: Pbs, q: Request)
    ensures FindByPath(names, s.stores, q.target).Some? <==> TargetExists(s, q, names)
  {
    if names != [] {
      FoundIff(names[1..], s, q);
      assert names == [names[0]] + names[1..];
    }
  }

  /** An export reports success if and only if everything that decides about it went well, the sync run included. */
  lemma RaisesIff(s: Pbs, q: Request, o: Oracle)
    requires Truthful(s, o)
    ensures Export(s, q, o).raised <==> !GoesWell(s, q, o)
  {
    if o.storeNames.Some? && q.source in o.storeNames.value {
      var existing := FindByPath(o.storeNames.value, s.stores, q.target);
      var stale := ClearStale(s, o);
      FoundIff(o.storeNames.value, s, q);
      CleansUpIff(s, o);
      ClearStaleEffect(s, o);
      assert TargetStore(q, None) == NewStore(q);
      if !stale.raised {
        BracketRaisesIff(stale, q, existing, o);
      }
      hide ClearStale, Create, Remove, FindByPath, TargetStore, NewStore, TargetExists, CleansUp, NoPboJobs,
        NoPboRemotes;
    }
  }

  /** The sync job of this export is in place: between its remote and a datastore on the target's path. */
  ghost predicate InPlace(s: Pbs, q: Request) {
    var name := "pbo-export-sync-" + q.syncHash;
    && name in s.jobs && s.jobs[name].remote == "pbo-export-remote-" + q.remoteHash
    && s.jobs[name].remote in s.remotes
    && s.jobs[name].store in s.stores && s.stores[s.jobs[name].store] == q.target
  }

  /** An export that reports success had its sync job in place between its remote and the target. */
  lemma SuccessHadItsJob(s: Pbs, q: Request, o: Oracle)
    requires Truthful(s, o) && !Export(s, q, o).raised
    ensures exists i :: 0 <= i < |Export(s, q, o).states| && InPlace(Export(s, q, o).states[i], q)
  {
    var existing := FindByPath(o.storeNames.value, s.stores, q.target);
    var stale := ClearStale(s, o);
    ClearStaleEffect(s, o);
    hide ClearStale, FindByPath;
    var made := Create(stale, q, existing, o);
    CreatedInPlace(stale, q, existing, o);
    hide Create;
    RemovalOnlyAdds(made, q, existing, o);
    hide Remove;
    var i := |made.course.states| - 1;
    assert Export(s, q, o).states[i] == made.course.Now();
  }

  lemma RemovalOnlyAdds(m: Made, q: Request, existing: Option<string>, o: Oracle)
    requires m.course.Valid()
    ensures m.course.states <= Remove(m, q, existing, o).states
    ensures m.course.raised ==> Remove(m, q, existing, o).raised
  {
    hide DropJob, DropRemote, DropStore;
  }

  lemma CreatedInPlace(c: Course, q: Request, existing: Option<string>, o: Oracle)
    requires c.Valid() && !c.raised
    requires existing.Some? ==> existing.value in c.Now().stores && c.Now().stores[existing.value] == q.target
    ensures var m := Create(c, q, existing, o); !m.course.raised ==> InPlace(m.course.Now(), q)
  {
    var store := TargetStore(q, existing);
    var m1 := StoreStage(c, q, existing, o);
    assert !m1.course.raised ==> store in m1.course.Now().stores && m1.course.Now().stores[store] == q.target;
    hide StoreStage, TargetStore;
    var m2 := RemoteStage(m1, q, o);
    assert !m2.course.raised ==> !m1.course.raised && m2.course.Now().stores == m1.course.Now().stores
                                 && RemoteName(q) in m2.course.Now().remotes;
    hide RemoteStage;
  }

  /** A PBS that refuses to remove what a sync job still names keeps the export free of dangling jobs. */
  lemma ReferenceCheckingPbsNeverDangles(s: Pbs, q: Request, o: Oracle)
    requires Truthful(s, o) && NoDangling(s)
    requires JobLeftBehind(o) ==> !o.removeRemote.Effective() && !o.removeStore.Effective()
    ensures NeverDangles(Export(s, q, o))
  {
    DanglesIff(s, q, o);
  }

  /** An export to a new target whose job removal is refused, everything else going well. */
  function RefusedRemoval(): Oracle {
    Oracle(Some(["src"]), Some([]), Some([]), n => false, n => Done, n => true, n => Done,
           Done, Done, Done, Done, Refused, Done, Done)
  }

  /** From a PBS with nothing but the source datastore, that leaves a job whose remote is gone. */
  lemma RefusedRemovalDangles()
    ensures var s, q := Pbs(map["src" := "/a"], {}, map[]), Request("src", "/b", None, false, "1", "2", "3");
            !NeverDangles(Export(s, q, RefusedRemoval()))
  {
    var s, q := Pbs(map["src" := "/a"], {}, map[]), Request("src", "/b", None, false, "1", "2", "3");
    var o := RefusedRemoval();
    assert FindByPath(["src"], s.stores, "/b") == None;
    assert ClearJobs(Course([s], false), [], o) == Course([s], false);
    assert !ClearStale(s, o).raised;
    assert TargetStore(q, None)[..17] == STORE_PREFIX && TargetStore(q, None) != "src";
    hide ClearStale, FindByPath, Export, NeverDangles, TargetStore;
    DanglesIff(s, q, o);
  }
}
