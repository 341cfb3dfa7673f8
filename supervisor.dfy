/** The supervisor loop of the Python cache builders (wait_loop in cli.py
    and in kubectl_fzf_cache_builder.py): each pass joins every worker
    process in turn, returns as soon as the exiting flag is seen, restarts
    the dead workers after refreshing the credentials, and returns when
    the current kube context names another cluster or namespace.
    Liveness, the flag and the context are inputs, one record per pass. */
module Supervisors {
  import opened Wrappers

  /** A worker process: its identity and the worker it runs (a resource
      class in cli.py, a watch function in the builder). */
  datatype Proc = Proc(pid: nat, worker: string)

  /** What one pass of the loop observes: the exiting flag at the loop
      head; after the join of the i-th process, the flag and whether that
      process is alive; and the current context's cluster and namespace. */
  datatype Pass = Pass(exitingAtHead: bool, exitingAfterJoin: nat -> bool, alive: nat -> bool,
                       cluster: string, namespace: string)

  /** Why the loop returned. */
  datatype Stop = Exiting | ClusterChanged | NamespaceChanged

  /** What the loop does to the outside: refresh the credentials, start a
      process. */
  datatype Action = Refresh | Start(proc: Proc)

  /** cli.py ignores a namespace change while watching all namespaces; the
      builder does not. */
  datatype Flavor = Cli | Builder

  /** The process list, the next fresh process identity, and the actions
      taken so far. */
  datatype SupState = SupState(procs: seq<Proc>, nextPid: nat, actions: seq<Action>)

  /** Process identities are below the next fresh one. */
  predicate Valid(st: SupState)
  {
    forall i :: 0 <= i < |st.procs| ==> st.procs[i].pid < st.nextPid
  }

  /** The worker of each process, in list order. */
  function Workers(ps: seq<Proc>): seq<string>
  {
    seq(|ps|, i requires 0 <= i < |ps| => ps[i].worker)
  }

  /** How many processes run each worker. */
  function WorkerCount(ps: seq<Proc>): multiset<string>
  {
    multiset(Workers(ps))
  }

  lemma WorkerCountAppend(a: seq<Proc>, np: Proc)
    ensures WorkerCount(a + [np]) == WorkerCount(a) + multiset{np.worker}
  {
    assert Workers(a + [np]) == Workers(a) + [np.worker];
  }

  lemma WorkerCountConcat(a: seq<Proc>, b: seq<Proc>)
    ensures WorkerCount(a + b) == WorkerCount(a) + WorkerCount(b)
  {
    assert Workers(a + b) == Workers(a) + Workers(b);
  }

  /** Every process start is right after a refresh of the credentials. */
  predicate RefreshedBeforeStarts(actions: seq<Action>)
  {
    forall j :: 0 <= j < |actions| && actions[j].Start? ==> j > 0 && actions[j - 1] == Refresh
  }

  // ---------------------------------------------------------------------
  // The join pass

  datatype Joined = Interrupted | Dead(procs: seq<Proc>)

  /** The join of the first n processes: interrupted when the flag is seen
      after a join, else the processes found dead, in list order. */
  function JoinFirst(ps: seq<Proc>, p: Pass, n: nat): Joined
    requires n <= |ps|
  {
    if n == 0 then Dead([])
    else match JoinFirst(ps, p, n - 1)
      case Interrupted => Interrupted
      case Dead(ds) =>
        if p.exitingAfterJoin(n - 1) then Interrupted
        else if !p.alive(n - 1) then Dead(ds + [ps[n - 1]])
        else Dead(ds)
  }

  /** The pass is interrupted exactly when the flag is seen after some
      join. */
  lemma {:induction false} JoinInterrupted(ps: seq<Proc>, p: Pass, n: nat)
    requires n <= |ps|
    ensures JoinFirst(ps, p, n).Interrupted? <==> exists i :: 0 <= i < n && p.exitingAfterJoin(i)
  {
    if n > 0 {
      JoinInterrupted(ps, p, n - 1);
    }
  }

  /** Otherwise every process seen dead is in the dead list, and only
      those. */
  lemma {:induction false} JoinDeadMembers(ps: seq<Proc>, p: Pass, n: nat)
    requires n <= |ps| && JoinFirst(ps, p, n).Dead?
    ensures forall i :: 0 <= i < n && !p.alive(i) ==> ps[i] in JoinFirst(ps, p, n).procs
    ensures forall q :: q in JoinFirst(ps, p, n).procs ==> exists i :: 0 <= i < n && ps[i] == q && !p.alive(i)
  {
    if n > 0 {
      JoinDeadMembers(ps, p, n - 1);
    }
  }

  /** The dead list names no process more often than the list holds it. */
  lemma {:induction false} JoinDeadSub(ps: seq<Proc>, p: Pass, n: nat)
    requires n <= |ps| && JoinFirst(ps, p, n).Dead?
    ensures multiset(JoinFirst(ps, p, n).procs) <= multiset(ps[..n])
  {
    if n > 0 {
      JoinDeadSub(ps, p, n - 1);
      MultisetSnoc(ps[..n]);
      assert ps[..n][..n - 1] == ps[..n - 1];
    }
  }

  // ---------------------------------------------------------------------
  // Restarting the dead

  /** The position of the first element equal to p. */
  function FirstIndex(ps: seq<Proc>, p: Proc): (i: nat)
    requires p in ps
    ensures i < |ps| && ps[i] == p && p !in ps[..i]
  {
    if ps[0] == p then 0
    else
      var i := FirstIndex(ps[1..], p);
      assert ps[..i + 1] == [ps[0]] + ps[1..][..i];
      i + 1
  }

  /** The first position holding p is the one before which p does not occur. */
  lemma FirstIndexAt(ps: seq<Proc>, p: Proc, k: nat)
    requires k < |ps| && ps[k] == p && p !in ps[..k]
    ensures FirstIndex(ps, p) == k
  {
  }

  /** list.remove: drops the first element equal to p (p is always there). */
  function RemoveFirst(ps: seq<Proc>, p: Proc): seq<Proc>
  {
    if p in ps then var i := FirstIndex(ps, p); ps[..i] + ps[i + 1..] else ps
  }

  /** Dropping position i loses one process and one of its worker. */
  lemma RemoveAtCount(ps: seq<Proc>, i: nat)
    requires i < |ps|
    ensures |ps[..i] + ps[i + 1..]| == |ps| - 1
    ensures WorkerCount(ps[..i] + ps[i + 1..]) + multiset{ps[i].worker} == WorkerCount(ps)
  {
    var w := Workers(ps);
    assert Workers(ps[..i] + ps[i + 1..]) == w[..i] + w[i + 1..];
    assert w == w[..i] + [w[i]] + w[i + 1..];
  }

  lemma RemoveFirstProps(ps: seq<Proc>, p: Proc)
    requires p in ps
    ensures |RemoveFirst(ps, p)| == |ps| - 1
    ensures WorkerCount(RemoveFirst(ps, p)) + multiset{p.worker} == WorkerCount(ps)
    ensures multiset(RemoveFirst(ps, p)) + multiset{p} == multiset(ps)
  {
    var i := FirstIndex(ps, p);
    RemoveAtCount(ps, i);
    assert ps == ps[..i] + [ps[i]] + ps[i + 1..];
  }

  /** One turn of the restart loop: the dead process p is removed from the
      list, the credentials are refreshed, and a new process for the same
      worker is started and appended. */
  function RestartOne(st: SupState, p: Proc): SupState
  {
    var np := Proc(st.nextPid, p.worker);
    SupState(RemoveFirst(st.procs, p) + [np], st.nextPid + 1, st.actions + [Refresh, Start(np)])
  }

  /** The restart loop over the dead processes, in order. */
  function Restart(st: SupState, dead: seq<Proc>): SupState
  {
    if dead == [] then st else RestartOne(Restart(st, dead[..|dead| - 1]), dead[|dead| - 1])
  }

  /** Each restart takes the next fresh identity. */
  lemma {:induction false} RestartNext(st: SupState, dead: seq<Proc>)
    ensures Restart(st, dead).nextPid == st.nextPid + |dead|
  {
    if dead != [] {
      RestartNext(st, dead[..|dead| - 1]);
    }
  }

  /** Restarting extends the actions by a refresh and a start per dead
      process, so every start still follows a refresh. */
  lemma {:induction false} RestartActions(st: SupState, dead: seq<Proc>)
    ensures var st' := Restart(st, dead);
            st'.nextPid == st.nextPid + |dead|
            && |st'.actions| == |st.actions| + 2 * |dead| && st'.actions[..|st.actions|] == st.actions
            && (RefreshedBeforeStarts(st.actions) ==> RefreshedBeforeStarts(st'.actions))
  {
    if dead != [] {
      RestartActions(st, dead[..|dead| - 1]);
      var st1 := Restart(st, dead[..|dead| - 1]);
      assert Restart(st, dead) == RestartOne(st1, dead[|dead| - 1]);
      var np := Proc(st1.nextPid, dead[|dead| - 1].worker);
      var acts := st1.actions + [Refresh, Start(np)];
      assert acts[..|st.actions|] == st1.actions[..|st.actions|];
      if RefreshedBeforeStarts(st.actions) {
        forall j | 0 <= j < |acts| && acts[j].Start? ensures j > 0 && acts[j - 1] == Refresh {
          if j < |st1.actions| {
            assert acts[j] == st1.actions[j] && acts[j - 1] == st1.actions[j - 1];
          }
        }
      }
    }
  }

  /** The processes started for the dead ones, in order: one per dead
      process, for its worker, with consecutive identities from next. */
  function Fresh(next: nat, dead: seq<Proc>): seq<Proc>
  {
    seq(|dead|, k requires 0 <= k < |dead| => Proc(next + k, dead[k].worker))
  }

  /** The started processes take identities from next on, unused so far
      when every identity in the list is below next. */
  lemma FreshIdentities(next: nat, dead: seq<Proc>)
    ensures |Fresh(next, dead)| == |dead|
    ensures forall x :: x in Fresh(next, dead) ==> next <= x.pid < next + |dead|
  {
    forall x | x in Fresh(next, dead) ensures next <= x.pid < next + |dead| {
      var k :| 0 <= k < |dead| && Fresh(next, dead)[k] == x;
    }
  }

  /** The multiset of a list is that of all but its last element, plus
      the last. */
  lemma MultisetSnoc(ps: seq<Proc>)
    requires ps != []
    ensures multiset(ps) == multiset(ps[..|ps| - 1]) + multiset{ps[|ps| - 1]}
  {
    assert ps == ps[..|ps| - 1] + [ps[|ps| - 1]];
  }

  lemma FreshAppend(next: nat, dead: seq<Proc>, p: Proc)
    ensures Fresh(next, dead + [p]) == Fresh(next, dead) + [Proc(next + |dead|, p.worker)]
  {
    var a := Fresh(next, dead + [p]);
    var b := Fresh(next, dead) + [Proc(next + |dead|, p.worker)];
    forall k | 0 <= k < |a| ensures a[k] == b[k] {
      if k < |dead| {
        assert (dead + [p])[k] == dead[k];
      }
    }
  }

  lemma FreshSnoc(next: nat, dead: seq<Proc>)
    requires dead != []
    ensures Fresh(next, dead) == Fresh(next, dead[..|dead| - 1]) + [Proc(next + (|dead| - 1), dead[|dead| - 1].worker)]
  {
    assert dead == dead[..|dead| - 1] + [dead[|dead| - 1]];
    FreshAppend(next, dead[..|dead| - 1], dead[|dead| - 1]);
  }

  /** The started processes run the dead ones' workers, in order. */
  lemma FreshWorkers(next: nat, dead: seq<Proc>)
    ensures Workers(Fresh(next, dead)) == Workers(dead)
  {
  }

  /** The list with the dead processes removed one by one, each time the
      first process equal to it. */
  function Removed(ps: seq<Proc>, dead: seq<Proc>): seq<Proc>
  {
    if dead == [] then ps else RemoveFirst(Removed(ps, dead[..|dead| - 1]), dead[|dead| - 1])
  }

  /** Removing p from a list whose tail does not hold p removes it from
      the head part. */
  lemma RemoveFirstAppend(a: seq<Proc>, b: seq<Proc>, p: Proc)
    requires p !in b
    ensures RemoveFirst(a + b, p) == RemoveFirst(a, p) + b
  {
    if p in a {
      var i := FirstIndex(a, p);
      var j := FirstIndex(a + b, p);
      assert (a + b)[..i] == a[..i];
      FirstIndexAt(a + b, p, i);
      assert (a + b)[i + 1..] == a[i + 1..] + b;
    } else {
      assert p !in a + b;
    }
  }

  /** The restart loop leaves the list with the dead removed, followed by
      the new processes in the order of the dead ones; each dead process's
      identity is below the next fresh one, so none of the new processes
      is ever removed in its place. */
  lemma {:induction false} RestartShape(st: SupState, dead: seq<Proc>)
    requires forall q :: q in dead ==> q.pid < st.nextPid
    ensures Restart(st, dead).procs == Removed(st.procs, dead) + Fresh(st.nextPid, dead)
  {
    if dead != [] {
      var init := dead[..|dead| - 1];
      var p := dead[|dead| - 1];
      RestartShape(st, init);
      RestartNext(st, init);
      FreshIdentities(st.nextPid, init);
      RemoveFirstAppend(Removed(st.procs, init), Fresh(st.nextPid, init), p);
      FreshSnoc(st.nextPid, dead);
    }
  }

  /** A process in a removal order not yet used is still in the list. */
  lemma StillThere(m: multiset<Proc>, a: multiset<Proc>, s: multiset<Proc>, p: Proc)
    requires a + multiset{p} <= m && s + a == m
    ensures p in s
  {
    assert (s + a)[p] == m[p];
  }

  /** Removing the dead processes (each in the list, as often as dead
      names it) takes exactly them out. */
  lemma {:induction false} RemovedProcs(ps: seq<Proc>, dead: seq<Proc>)
    requires multiset(dead) <= multiset(ps)
    ensures multiset(Removed(ps, dead)) + multiset(dead) == multiset(ps)
  {
    if dead != [] {
      var init := dead[..|dead| - 1];
      var p := dead[|dead| - 1];
      MultisetSnoc(dead);
      RemovedProcs(ps, init);
      var r := Removed(ps, init);
      StillThere(multiset(ps), multiset(init), multiset(r), p);
      RemoveFirstProps(r, p);
    }
  }

  /** Removing them takes out one process per dead process. */
  lemma {:induction false} RemovedSize(ps: seq<Proc>, dead: seq<Proc>)
    requires multiset(dead) <= multiset(ps)
    ensures |Removed(ps, dead)| + |dead| == |ps|
  {
    if dead != [] {
      var init := dead[..|dead| - 1];
      var p := dead[|dead| - 1];
      MultisetSnoc(dead);
      RemovedSize(ps, init);
      RemovedProcs(ps, init);
      StillThere(multiset(ps), multiset(init), multiset(Removed(ps, init)), p);
      RemoveFirstProps(Removed(ps, init), p);
    }
  }

  /** ... and one process of each dead process's worker. */
  lemma {:induction false} RemovedWorkers(ps: seq<Proc>, dead: seq<Proc>)
    requires multiset(dead) <= multiset(ps)
    ensures WorkerCount(Removed(ps, dead)) + WorkerCount(dead) == WorkerCount(ps)
  {
    if dead != [] {
      var init := dead[..|dead| - 1];
      var p := dead[|dead| - 1];
      MultisetSnoc(dead);
      RemovedWorkers(ps, init);
      RemovedProcs(ps, init);
      StillThere(multiset(ps), multiset(init), multiset(Removed(ps, init)), p);
      RemoveFirstProps(Removed(ps, init), p);
      WorkerCountSnoc(dead);
      PutBack(WorkerCount(Removed(ps, dead)), WorkerCount(Removed(ps, init)), WorkerCount(init), WorkerCount(dead),
              WorkerCount(ps), p.worker);
    }
  }

  /** Multiset bookkeeping: what was taken out of one part is added to
      the other. */
  lemma PutBack<T>(r: multiset<T>, r0: multiset<T>, d0: multiset<T>, d: multiset<T>, m: multiset<T>, e: T)
    requires r + multiset{e} == r0 && d == d0 + multiset{e} && r0 + d0 == m
    ensures r + d == m
  {
  }

  lemma WorkerCountSnoc(ps: seq<Proc>)
    requires ps != []
    ensures WorkerCount(ps) == WorkerCount(ps[..|ps| - 1]) + multiset{ps[|ps| - 1].worker}
  {
    assert ps == ps[..|ps| - 1] + [ps[|ps| - 1]];
    WorkerCountAppend(ps[..|ps| - 1], ps[|ps| - 1]);
  }

  /** Restarting the processes in dead (each of them in the list, as often
      as dead names it, and so with an identity below the next fresh one)
      keeps the number of processes and how many run each worker. */
  lemma RestartKeepsWorkers(st: SupState, dead: seq<Proc>)
    requires multiset(dead) <= multiset(st.procs)
    requires forall q :: q in dead ==> q.pid < st.nextPid
    ensures var st' := Restart(st, dead);
            |st'.procs| == |st.procs| && WorkerCount(st'.procs) == WorkerCount(st.procs)
  {
    RestartShape(st, dead);
    RemovedSize(st.procs, dead);
    RemovedWorkers(st.procs, dead);
    var r := Removed(st.procs, dead);
    var f := Fresh(st.nextPid, dead);
    FreshWorkers(st.nextPid, dead);
    WorkerCountConcat(r, f);
  }

  /** One turn keeps identities below the next fresh one. */
  lemma RestartOneValid(st: SupState, p: Proc)
    requires Valid(st)
    ensures Valid(RestartOne(st, p))
  {
    var rest := RemoveFirst(st.procs, p);
    if p in st.procs {
      RemoveFirstProps(st.procs, p);
    }
    forall i | 0 <= i < |rest| ensures rest[i].pid < st.nextPid {
      assert rest[i] in multiset(st.procs);
    }
    var procs' := rest + [Proc(st.nextPid, p.worker)];
    forall i | 0 <= i < |procs'| ensures procs'[i].pid < st.nextPid + 1 {
      if i < |rest| {
        assert procs'[i] == rest[i];
      }
    }
  }

  /** Restarting keeps identities below the next fresh one, so a new
      process never shares an identity with one that ran before. */
  lemma {:induction false} RestartValid(st: SupState, dead: seq<Proc>)
    requires Valid(st)
    ensures Valid(Restart(st, dead))
  {
    if dead != [] {
      RestartValid(st, dead[..|dead| - 1]);
      RestartOneValid(Restart(st, dead[..|dead| - 1]), dead[|dead| - 1]);
    }
  }

  // ---------------------------------------------------------------------
  // The context check and one pass

  /** After the restarts: a different cluster returns; a different
      namespace returns, except in cli.py while watching 'all'. */
  function ContextStop(flavor: Flavor, cluster: string, namespace: string, newCluster: string, newNamespace: string): Option<Stop>
  {
    if cluster != newCluster then Some(ClusterChanged)
    else if (flavor == Builder || namespace != "all") && namespace != newNamespace then Some(NamespaceChanged)
    else None
  }

  /** One pass of wait_loop; Some when the loop returns. */
  function PassStep(flavor: Flavor, st: SupState, p: Pass, cluster: string, namespace: string): (SupState, Option<Stop>)
  {
    if p.exitingAtHead then (st, Some(Exiting))
    else match JoinFirst(st.procs, p, |st.procs|)
      case Interrupted => (st, Some(Exiting))
      case Dead(ds) => (Restart(st, ds), ContextStop(flavor, cluster, namespace, p.cluster, p.namespace))
  }

  /** The loop over the passes given; None when they run out before it
      returns (the source goes on looping). */
  function RunPasses(flavor: Flavor, st: SupState, passes: seq<Pass>, cluster: string, namespace: string): (SupState, Option<Stop>)
  {
    if passes == [] then (st, None)
    else
      var (st1, stop) := RunPasses(flavor, st, passes[..|passes| - 1], cluster, namespace);
      if stop.Some? then (st1, stop) else PassStep(flavor, st1, passes[|passes| - 1], cluster, namespace)
  }

  /** One more pass, after passes that did not stop the loop. */
  lemma RunPassesStep(flavor: Flavor, st: SupState, passes: seq<Pass>, cluster: string, namespace: string, n: nat)
    requires n < |passes| && RunPasses(flavor, st, passes[..n], cluster, namespace).1 == None
    ensures RunPasses(flavor, st, passes[..n + 1], cluster, namespace)
            == PassStep(flavor, RunPasses(flavor, st, passes[..n], cluster, namespace).0, passes[n], cluster, namespace)
  {
    assert passes[..n + 1][..n] == passes[..n];
  }

  /** The flag seen at the loop head or after any join ends the loop at
      once, with nothing restarted. */
  lemma PassExits(flavor: Flavor, st: SupState, p: Pass, cluster: string, namespace: string)
    requires p.exitingAtHead || exists i :: 0 <= i < |st.procs| && p.exitingAfterJoin(i)
    ensures PassStep(flavor, st, p, cluster, namespace) == (st, Some(Exiting))
  {
    JoinInterrupted(st.procs, p, |st.procs|);
  }

  /** The processes a pass finds dead are processes of the list: each as
      often as the list holds it, with an identity below the next fresh one. */
  lemma PassDead(st: SupState, p: Pass)
    requires Valid(st) && JoinFirst(st.procs, p, |st.procs|).Dead?
    ensures var ds := JoinFirst(st.procs, p, |st.procs|).procs;
            multiset(ds) <= multiset(st.procs) && forall q :: q in ds ==> q.pid < st.nextPid
  {
    JoinDeadSub(st.procs, p, |st.procs|);
    JoinDeadMembers(st.procs, p, |st.procs|);
    assert st.procs[..|st.procs|] == st.procs;
  }

  /** A pass that sees no flag restarts exactly the processes seen dead:
      the list afterwards is the list without them followed by their
      replacements; and it returns when the cluster changed. */
  lemma PassClusterChange(flavor: Flavor, st: SupState, p: Pass, cluster: string, namespace: string)
    requires Valid(st) && !p.exitingAtHead
    requires forall i :: 0 <= i < |st.procs| ==> !p.exitingAfterJoin(i)
    ensures JoinFirst(st.procs, p, |st.procs|).Dead?
    ensures var ds := JoinFirst(st.procs, p, |st.procs|).procs;
            (forall i :: 0 <= i < |st.procs| && !p.alive(i) ==> st.procs[i] in ds)
            && (forall q :: q in ds ==> exists i :: 0 <= i < |st.procs| && st.procs[i] == q && !p.alive(i))
            && PassStep(flavor, st, p, cluster, namespace).0.procs == Removed(st.procs, ds) + Fresh(st.nextPid, ds)
            && multiset(Removed(st.procs, ds)) + multiset(ds) == multiset(st.procs)
    ensures p.cluster != cluster ==> PassStep(flavor, st, p, cluster, namespace).1 == Some(ClusterChanged)
  {
    JoinInterrupted(st.procs, p, |st.procs|);
    JoinDeadMembers(st.procs, p, |st.procs|);
    PassDead(st, p);
    RestartShape(st, JoinFirst(st.procs, p, |st.procs|).procs);
    RemovedProcs(st.procs, JoinFirst(st.procs, p, |st.procs|).procs);
  }

  /** cli.py: while watching 'all', a namespace change does not end the
      loop. The builder returns on any namespace change. */
  lemma NamespaceChange(st: SupState, p: Pass, cluster: string, namespace: string)
    requires !p.exitingAtHead
    requires forall i :: 0 <= i < |st.procs| ==> !p.exitingAfterJoin(i)
    requires p.cluster == cluster
    ensures namespace == "all" ==> PassStep(Cli, st, p, cluster, namespace).1 == None
    ensures namespace != "all" ==> PassStep(Cli, st, p, cluster, namespace).1 == if p.namespace != namespace then Some(NamespaceChanged) else None
    ensures PassStep(Builder, st, p, cluster, namespace).1 == if p.namespace != namespace then Some(NamespaceChanged) else None
  {
    JoinInterrupted(st.procs, p, |st.procs|);
  }

  /** A pass keeps the process count and the number of processes per
      worker, and refreshes before every start. */
  lemma PassKeepsWorkers(flavor: Flavor, st: SupState, p: Pass, cluster: string, namespace: string)
    requires Valid(st) && RefreshedBeforeStarts(st.actions)
    ensures var st' := PassStep(flavor, st, p, cluster, namespace).0;
            Valid(st') && |st'.procs| == |st.procs| && WorkerCount(st'.procs) == WorkerCount(st.procs)
            && RefreshedBeforeStarts(st'.actions)
  {
    if !p.exitingAtHead && JoinFirst(st.procs, p, |st.procs|).Dead? {
      PassDead(st, p);
      var ds := JoinFirst(st.procs, p, |st.procs|).procs;
      RestartKeepsWorkers(st, ds);
      RestartValid(st, ds);
      RestartActions(st, ds);
    }
  }

  /** Over the whole loop the process count and the processes per worker
      never change and every start follows a refresh. */
  lemma {:induction false} RunKeepsWorkers(flavor: Flavor, st: SupState, passes: seq<Pass>, cluster: string, namespace: string)
    requires Valid(st) && RefreshedBeforeStarts(st.actions)
    ensures var st' := RunPasses(flavor, st, passes, cluster, namespace).0;
            Valid(st') && |st'.procs| == |st.procs| && WorkerCount(st'.procs) == WorkerCount(st.procs)
            && RefreshedBeforeStarts(st'.actions)
  {
    if passes != [] {
      RunKeepsWorkers(flavor, st, passes[..|passes| - 1], cluster, namespace);
      var (st1, stop) := RunPasses(flavor, st, passes[..|passes| - 1], cluster, namespace);
      if stop.None? {
        PassKeepsWorkers(flavor, st1, passes[|passes| - 1], cluster, namespace);
      }
    }
  }

  // ---------------------------------------------------------------------
  // The loop itself

  class Supervisor {
    var processes: seq<Proc>
    var nextPid: nat
    var actions: seq<Action>

    function State(): SupState
      reads this
    {
      SupState(processes, nextPid, actions)
    }

    constructor(processes: seq<Proc>, nextPid: nat)
      ensures State() == SupState(processes, nextPid, [])
    {
      this.processes := processes;
      this.nextPid := nextPid;
      actions := [];
    }

    /** The join pass over the process list. */
    method JoinAll(p: Pass) returns (j: Joined)
      ensures j == JoinFirst(processes, p, |processes|)
    {
      var dead: seq<Proc> := [];
      var n := 0;
      while n < |processes|
        invariant 0 <= n <= |processes|
        invariant JoinFirst(processes, p, n) == Dead(dead)
      {
        if p.exitingAfterJoin(n) {
          j := Interrupted;
          InterruptedStays(processes, p, n + 1);
          return;
        }
        if !p.alive(n) {
          dead := dead + [processes[n]];
        }
        n := n + 1;
      }
      j := Dead(dead);
    }

    /** The restart loop over the dead processes. */
    method RestartDead(dead: seq<Proc>)
      modifies this
      ensures State() == Restart(old(State()), dead)
    {
      var n := 0;
      while n < |dead|
        invariant 0 <= n <= |dead|
        invariant State() == Restart(old(State()), dead[..n])
      {
        var p := dead[n];
        assert dead[..n + 1][..n] == dead[..n];
        processes := RemoveFirst(processes, p);
        actions := actions + [Refresh];
        var np := Proc(nextPid, p.worker);
        nextPid := nextPid + 1;
        actions := actions + [Start(np)];
        processes := processes + [np];
        n := n + 1;
      }
      assert dead[..n] == dead;
    }

    /** One pass of wait_loop: the flag at the loop head, the join pass,
        the restarts and the context check. */
    method RunPass(flavor: Flavor, p: Pass, cluster: string, namespace: string) returns (stop: Option<Stop>)
      modifies this
      ensures (State(), stop) == PassStep(flavor, old(State()), p, cluster, namespace)
    {
      if p.exitingAtHead {
        return Some(Exiting);
      }
      var joined := JoinAll(p);
      if joined.Interrupted? {
        return Some(Exiting);
      }
      RestartDead(joined.procs);
      stop := ContextStop(flavor, cluster, namespace, p.cluster, p.namespace);
    }

    /** wait_loop over the passes given. */
    method WaitLoop(flavor: Flavor, passes: seq<Pass>, cluster: string, namespace: string) returns (stop: Option<Stop>)
      modifies this
      ensures (State(), stop) == RunPasses(flavor, old(State()), passes, cluster, namespace)
    {
      var n := 0;
      while n < |passes|
        invariant 0 <= n <= |passes|
        invariant RunPasses(flavor, old(State()), passes[..n], cluster, namespace) == (State(), None)
      {
        RunPassesStep(flavor, old(State()), passes, cluster, namespace, n);
        stop := RunPass(flavor, passes[n], cluster, namespace);
        if stop.Some? {
          PassesAfterStop(flavor, old(State()), passes, cluster, namespace, n + 1);
          return;
        }
        n := n + 1;
      }
      assert passes[..n] == passes;
      stop := None;
    }
  }

  lemma {:induction false} InterruptedStays(ps: seq<Proc>, p: Pass, n: nat)
    requires n <= |ps| && JoinFirst(ps, p, n).Interrupted?
    ensures JoinFirst(ps, p, |ps|).Interrupted?
    decreases |ps| - n
  {
    if n < |ps| {
      InterruptedStays(ps, p, n + 1);
    }
  }

  lemma {:induction false} PassesAfterStop(flavor: Flavor, st: SupState, passes: seq<Pass>, cluster: string, namespace: string, n: nat)
    requires n <= |passes| && RunPasses(flavor, st, passes[..n], cluster, namespace).1.Some?
    ensures RunPasses(flavor, st, passes, cluster, namespace) == RunPasses(flavor, st, passes[..n], cluster, namespace)
    decreases |passes| - n
  {
    if n < |passes| {
      assert passes[..n + 1][..n] == passes[..n];
      PassesAfterStop(flavor, st, passes, cluster, namespace, n + 1);
    } else {
      assert passes[..n] == passes;
    }
  }
}
