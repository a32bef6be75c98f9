/**
 * Removal discards the lock object of a name. Adding the name again is safe exactly while no task
 * still queues for the discarded one.
 */
module MonitorReAdding {
  import opened Models
  import opened Monitor
  import opened MonitorLocks
  import opened MonitorShares
  import opened MonitorRuns
  import opened MonitorSolo

  ghost predicate NeverTwoHolders(s: System) {
    forall run :: Runs(s, run) ==> OneHolderEach(Final(s, run))
  }

  lemma LocksGiveNeverTwoHolders(s: System)
    requires SystemInv(s)
    ensures NeverTwoHolders(s)
  {
    forall run | Runs(s, run) ensures OneHolderEach(Final(s, run)) {
      RunKeepsSystemInv(s, run);
      LocksGiveOneHolderEach(Final(s, run));
    }
  }

  lemma RunsOn(s: System, a: Action, run: seq<Action>)
    requires Enabled(s, a) && Orderly(s, a) && Runs(Next(s, a), run)
    ensures Runs(s, [a] + run) && Final(s, [a] + run) == Final(Next(s, a), run)
  {
    assert ([a] + run)[1..] == run;
  }

  /** Nobody holds a lock object of an unregistered name, current or discarded. */
  lemma LocksAreFree(s: System, name: string, t: nat)
    requires SystemInv(s) && !Registered(s, name) && StaleWaiter(s, name, t)
    ensures s.tasks[t].lock !in s.held && s.tasks[t].lock < s.nextLock && s.nextLock !in s.held
    ensures name in s.locks ==> s.locks[name] !in s.held
  {
    assert TaskOk(s, s.tasks[t]);
    forall l | l in s.held ensures l < s.nextLock && l != s.tasks[t].lock && (name in s.locks ==> l != s.locks[name]) {
      var u: nat :| HoldsLock(s, l, u);
      assert TaskOk(s, s.tasks[u]);
    }
  }

  /** Tasks `k` and `t` wait for the same name at two different free locks. */
  predicate TwoDoors(s: System, name: string, k: nat, t: nat) {
    && k < |s.tasks| && t < |s.tasks| && k != t && name in s.telegram && name !in s.config
    && Waits(s.tasks[k]) && Waits(s.tasks[t])
    && s.tasks[k].service.name == name && s.tasks[t].service.name == name
    && s.tasks[k].lock !in s.held && s.tasks[t].lock !in s.held && s.tasks[k].lock != s.tasks[t].lock
  }

  lemma EarlierTwoHolders(s: System, a: Action)
    requires Enabled(s, a) && Orderly(s, a) && !NeverTwoHolders(Next(s, a))
    ensures !NeverTwoHolders(s)
  {
    var run :| Runs(Next(s, a), run) && !OneHolderEach(Final(Next(s, a), run));
    RunsOn(s, a, run);
  }

  lemma SecondGetsIn(s: System, name: string, k: nat, t: nat)
    requires t < |s.tasks| && k != t && HolderOf(s, name, k)
    requires Waits(s.tasks[t]) && s.tasks[t].service.name == name && s.tasks[t].lock !in s.held
    requires name in s.telegram && name !in s.config
    ensures !NeverTwoHolders(s)
  {
    var b := TaskAction(t, Acquire);
    var q := Next(s, b);
    assert q == Acquired(s, t) && HolderOf(q, name, k) && HolderOf(q, name, t);
    RunsOn(s, b, []);
  }

  lemma BothGetIn(s: System, name: string, k: nat, t: nat)
    requires TwoDoors(s, name, k, t)
    ensures !NeverTwoHolders(s)
  {
    var b := TaskAction(t, Acquire);
    var r := Next(s, TaskAction(k, Acquire));
    assert r == Acquired(s, k) && r.tasks[t] == s.tasks[t];
    SecondGetsIn(r, name, k, t);
    EarlierTwoHolders(s, TaskAction(k, Acquire));
  }

  /** A new check of the re-added name queues at the new lock while the old waiter is still at the old one. */
  lemma StaleWaiterGetsIn(s: System, service: Service, t: nat)
    requires SystemInv(s) && Enabled(s, Add(service)) && StaleWaiter(s, service.name, t)
    ensures !NeverTwoHolders(Added(s, service))
  {
    var name, k := service.name, |s.tasks|;
    LocksAreFree(s, name, t);
    var s1 := Added(s, service);
    var task := Task(service, 0, Requested);
    var s2 := s1.(tasks := s1.tasks + [task]);
    assert Next(s1, RequestCheck(name)) == s2;
    assert s2.tasks[k] == task && s2.tasks[t] == s.tasks[t];
    var s3 := Enqueued(s2, k);
    assert Next(s2, TaskAction(k, Enqueue)) == s3;
    assert TwoDoors(s3, name, k, t);
    BothGetIn(s3, name, k, t);
    EarlierTwoHolders(s2, TaskAction(k, Enqueue));
    EarlierTwoHolders(s1, RequestCheck(name));
  }

  lemma ReAddingIsSafeExactlyWhenNobodyWaits(s: System, service: Service)
    requires SystemInv(s) && Enabled(s, Add(service))
    ensures NeverTwoHolders(Next(s, Add(service))) <==> forall t: nat :: !StaleWaiter(s, service.name, t)
  {
    if t: nat :| StaleWaiter(s, service.name, t) {
      StaleWaiterGetsIn(s, service, t);
    } else {
      ActionKeepsSystemInv(s, Add(service));
      LocksGiveNeverTwoHolders(Added(s, service));
    }
  }

  /** A removal discards the lock object: whoever still queues for it is left behind. */
  lemma RemovalStrandsWaiters(s: System, t: nat)
    requires Locks(s) && t < |s.tasks| && StepEnabled(s, t, FinishRemoval)
    ensures var r, name := Next(s, TaskAction(t, FinishRemoval)), s.tasks[t].service.name;
            && name !in r.locks && s.tasks[t].lock !in r.held
            && forall u: nat :: u != t && u < |s.tasks| && s.tasks[u].service.name == name && Waits(s.tasks[u]) ==>
                 StaleWaiter(r, name, u)
  {
  }

  // --- a run to such a state -----------------------------------------------------------------

  /** A service that is not in the config file is added on the first start. */
  lemma FirstAdd(config: map<string, Service>, capacity: nat, v: Service) returns (s: System)
    requires WellNamed(config) && capacity >= 1 && v.name !in config
    ensures SystemInv(Init(config, capacity)) && FromQuiet(Init(config, capacity), NONE, s, v) && |s.tasks| == 0
    ensures v.name in s.telegram && v.name !in s.config
  {
    var o := Init(config, capacity);
    InitHasSystemInv(config, capacity);
    LeadsToItself(o);
    s := Next(o, Add(v));
    LeadsOn(o, o, NONE, Add(v));
    LeadsKeepsSystemInv(o, s, NONE);
  }

  /** Task 0 is a removal of `v` past its lock. */
  predicate BeingRemoved(s: System, v: Service) {
    |s.tasks| > 0 && s.tasks[0].service.name == v.name && s.tasks[0].pc == Removing && Lookup(s, v.name) == Some(v)
  }

  /** A check queues behind it. */
  lemma CheckQueuesBehind(o: System, s: System, v: Service) returns (r: System)
    requires Leads(o, s, NONE) && BeingRemoved(s, v) && |s.tasks| == 1
    ensures Leads(o, r, NONE) && BeingRemoved(r, v) && |r.tasks| == 2
    ensures r.tasks[1].service.name == v.name && r.tasks[1].pc == Queued
  {
    var r1 := Next(s, RequestCheck(v.name));
    assert r1 == s.(tasks := s.tasks + [Task(v, 0, Requested)]);
    LeadsOn(o, s, NONE, RequestCheck(v.name));
    r := CheckIsEnqueued(o, r1, v);
  }

  lemma CheckIsEnqueued(o: System, s: System, v: Service) returns (r: System)
    requires Leads(o, s, NONE) && BeingRemoved(s, v) && |s.tasks| == 2
    requires s.tasks[1].service.name == v.name && s.tasks[1].pc == Requested
    ensures Leads(o, r, NONE) && BeingRemoved(r, v) && |r.tasks| == 2
    ensures r.tasks[1].service.name == v.name && r.tasks[1].pc == Queued
  {
    r := Enqueued(s, 1);
    assert Next(s, TaskAction(1, Enqueue)) == r;
    LeadsOn(o, s, NONE, TaskAction(1, Enqueue));
  }

  /** The removal is finished, and the check is left behind. */
  lemma RemovalLeavesWaiter(o: System, s: System, v: Service) returns (r: System)
    requires SystemInv(o) && Leads(o, s, NONE) && BeingRemoved(s, v) && |s.tasks| == 2
    requires s.tasks[1].service.name == v.name && s.tasks[1].pc == Queued
    ensures Leads(o, r, NONE) && StaleWaiter(r, v.name, 1) && !Registered(r, v.name)
  {
    LeadsKeepsSystemInv(o, s, NONE);
    RemovalStrandsWaiters(s, 0);
    RemovalIsGone(s, 0);
    r := Next(s, TaskAction(0, FinishRemoval));
    LeadsOn(o, s, NONE, TaskAction(0, FinishRemoval));
  }

  lemma RemovalIsGone(s: System, t: nat)
    requires SystemInv(s) && t < |s.tasks| && StepEnabled(s, t, FinishRemoval)
    ensures !Registered(Removed(s, t), s.tasks[t].service.name)
  {
    assert TaskOk(s, s.tasks[t]);
  }

  /** For every service not in the config file there is a run in which adding it again breaks mutual exclusion. */
  lemma ReAddingCanBreakExclusion(config: map<string, Service>, capacity: nat, v: Service) returns (s: System)
    requires WellNamed(config) && capacity >= 1 && v.name !in config
    ensures Leads(Init(config, capacity), s, NONE) && StaleWaiter(s, v.name, 1)
    ensures Enabled(s, Add(v)) && !NeverTwoHolders(Next(s, Add(v)))
  {
    var o := Init(config, capacity);
    var added := FirstAdd(config, capacity, v);
    s := RemovalIsPastTheLock(o, NONE, added, v);
    s := CheckQueuesBehind(o, s, v);
    s := RemovalLeavesWaiter(o, s, v);
    LeadsKeepsSystemInv(o, s, NONE);
    StaleWaiterGetsIn(s, v, 1);
  }
}
