/** Client admission: which connections count as local, waiting for authentication, or
    authenticated remote clients, and the limits on each (`_accept_unix_client`,
    `_accept_tcp_client`, `_accept_client`, `_client_done`, and the authentication part of
    `_handle_client` in `src/tfr/gateway.py`). */
module Admission {

  type Task(==, !new)
  type Host(==, !new)

  datatype Limits = Limits(clients: nat, tcp: nat, pending: nat, pendingPerHost: nat)

  ghost function OnHost(pending: map<Task, Host>, host: Host): set<Task> {
    set t | t in pending && pending[t] == host
  }

  lemma {:induction false} CountBelow<T>(a: set<T>, b: set<T>)
    requires a <= b
    ensures |a| <= |b| && |b - a| == |b| - |a|
  {
    assert b == a + (b - a);
  }

  /** The local clients, as opposed to how the program counts them. */
  ghost function Local(clients: set<Task>, tcp: set<Task>, waiting: set<Task>): set<Task> {
    clients - tcp - waiting
  }

  ghost predicate Parts(clients: set<Task>, tcp: set<Task>, waiting: set<Task>) {
    tcp <= clients && waiting <= clients && tcp !! waiting
  }

  ghost predicate HostsBounded(l: Limits, pending: map<Task, Host>) {
    forall host :: |OnHost(pending, host)| <= l.pendingPerHost
  }

  /** Pending and authenticated remote clients are disjoint parts of all clients, and no
      limit is exceeded. */
  ghost predicate Accounted(l: Limits, clients: set<Task>, tcp: set<Task>, pending: map<Task, Host>) {
    && Parts(clients, tcp, pending.Keys)
    && |Local(clients, tcp, pending.Keys)| <= l.clients && |tcp| <= l.tcp && |pending| <= l.pending
    && HostsBounded(l, pending)
  }

  lemma {:induction false} KeysOf(pending: map<Task, Host>, task: Task, host: Host)
    ensures |pending| == |pending.Keys|
    ensures pending[task := host].Keys == pending.Keys + {task} && |pending[task := host]| == |pending.Keys + {task}|
    ensures (pending - {task}).Keys == pending.Keys - {task} && |pending - {task}| == |pending.Keys - {task}|
  {
    assert |pending[task := host]| == |pending[task := host].Keys|;
    assert |pending - {task}| == |(pending - {task}).Keys|;
  }

  /** The subtraction the program uses is the true number of local clients. */
  lemma {:induction false} LocalCount(clients: set<Task>, tcp: set<Task>, pending: map<Task, Host>)
    requires Parts(clients, tcp, pending.Keys)
    ensures |clients| - |tcp| - |pending| == |Local(clients, tcp, pending.Keys)|
  {
    CountBelow(tcp, clients);
    CountBelow(pending.Keys, clients - tcp);
    assert |pending| == |pending.Keys|;
  }

  lemma {:induction false} ArrivalSplits(clients: set<Task>, tcp: set<Task>, waiting: set<Task>, task: Task)
    requires Parts(clients, tcp, waiting) && task !in clients
    ensures Parts(clients + {task}, tcp, waiting) && Local(clients + {task}, tcp, waiting) == Local(clients, tcp, waiting) + {task}
    ensures Parts(clients + {task}, tcp, waiting + {task})
      && Local(clients + {task}, tcp, waiting + {task}) == Local(clients, tcp, waiting)
  {
  }

  lemma {:induction false} MoveSplits(clients: set<Task>, tcp: set<Task>, waiting: set<Task>, task: Task)
    requires Parts(clients, tcp, waiting) && task in waiting
    ensures Parts(clients, tcp + {task}, waiting - {task})
      && Local(clients, tcp + {task}, waiting - {task}) == Local(clients, tcp, waiting)
  {
  }

  lemma {:induction false} EndSplits(clients: set<Task>, tcp: set<Task>, waiting: set<Task>, task: Task)
    requires Parts(clients, tcp, waiting)
    ensures Parts(clients - {task}, tcp - {task}, waiting - {task})
    ensures Local(clients - {task}, tcp - {task}, waiting - {task}) == Local(clients, tcp, waiting) - {task}
  {
  }

  lemma {:induction false} FewerOnHosts(l: Limits, pending: map<Task, Host>, task: Task)
    requires HostsBounded(l, pending)
    ensures HostsBounded(l, pending - {task})
  {
    forall host {:trigger OnHost(pending - {task}, host)} ensures |OnHost(pending - {task}, host)| <= l.pendingPerHost {
      CountBelow(OnHost(pending - {task}, host), OnHost(pending, host));
    }
  }

  lemma {:induction false} OneMoreOnHost(l: Limits, pending: map<Task, Host>, task: Task, host: Host)
    requires HostsBounded(l, pending) && task !in pending && |OnHost(pending, host)| < l.pendingPerHost
    ensures HostsBounded(l, pending[task := host])
  {
    var after := pending[task := host];
    forall h ensures |OnHost(after, h)| <= l.pendingPerHost {
      assert OnHost(after, h) == if h == host then OnHost(pending, h) + {task} else OnHost(pending, h);
    }
  }

  lemma {:induction false} LocalKeeps(l: Limits, clients: set<Task>, tcp: set<Task>, pending: map<Task, Host>, task: Task)
    requires Accounted(l, clients, tcp, pending) && task !in clients && |Local(clients, tcp, pending.Keys)| < l.clients
    ensures Accounted(l, clients + {task}, tcp, pending)
  {
    hide HostsBounded, Parts, Local;
    ArrivalSplits(clients, tcp, pending.Keys, task);
  }

  lemma {:induction false} PendingKeeps(l: Limits, clients: set<Task>, tcp: set<Task>, pending: map<Task, Host>, task: Task, host: Host)
    requires Accounted(l, clients, tcp, pending) && task !in clients
    requires |pending| < l.pending && |OnHost(pending, host)| < l.pendingPerHost
    ensures Local(clients + {task}, tcp, pending[task := host].Keys) == Local(clients, tcp, pending.Keys)
    ensures Accounted(l, clients + {task}, tcp, pending[task := host])
  {
    assert task !in pending;
    hide HostsBounded, Parts, Local;
    OneMoreOnHost(l, pending, task, host);
    KeysOf(pending, task, host);
    ArrivalSplits(clients, tcp, pending.Keys, task);
  }

  lemma {:induction false} AuthenticationKeeps(l: Limits, clients: set<Task>, tcp: set<Task>, pending: map<Task, Host>, task: Task)
    requires Accounted(l, clients, tcp, pending) && task in pending && |tcp| < l.tcp
    ensures Local(clients, tcp + {task}, (pending - {task}).Keys) == Local(clients, tcp, pending.Keys)
    ensures Accounted(l, clients, tcp + {task}, pending - {task})
  {
    hide HostsBounded, Parts, Local;
    FewerOnHosts(l, pending, task);
    KeysOf(pending, task, pending[task]);
    MoveSplits(clients, tcp, pending.Keys, task);
  }

  lemma {:induction false} EndKeeps(l: Limits, clients: set<Task>, tcp: set<Task>, pending: map<Task, Host>, task: Task)
    requires Accounted(l, clients, tcp, pending)
    ensures Local(clients - {task}, tcp - {task}, (pending - {task}).Keys) == Local(clients, tcp, pending.Keys) - {task}
    ensures Accounted(l, clients - {task}, tcp - {task}, pending - {task})
  {
    hide HostsBounded, Parts, Local;
    FewerOnHosts(l, pending, task);
    EndSplits(clients, tcp, pending.Keys, task);
    if task in pending {
      KeysOf(pending, task, pending[task]);
    } else {
      assert pending - {task} == pending;
    }
    CountBelow(Local(clients, tcp, pending.Keys) - {task}, Local(clients, tcp, pending.Keys));
    CountBelow(tcp - {task}, tcp);
  }

  class Gate {
    const limits: Limits
    var clients: set<Task>
    var tcp: set<Task>
    var pending: map<Task, Host>

    ghost function Unix(): set<Task>
      reads this
    {
      Local(clients, tcp, pending.Keys)
    }

    ghost predicate Valid()
      reads this
    {
      Accounted(limits, clients, tcp, pending)
    }

    constructor (limits: Limits)
      ensures this.limits == limits && Valid() && clients == {}
    {
      this.limits, clients, tcp, pending := limits, {}, {}, map[];
      new;
      assert forall host :: OnHost(pending, host) == {};
    }

    /** A local connection: refused exactly when the local limit is reached. */
    method AcceptUnix(task: Task) returns (ok: bool)
      requires Valid() && task !in clients
      modifies this
      ensures Valid() && tcp == old(tcp) && pending == old(pending)
      ensures ok <==> |old(Unix())| < limits.clients
      ensures clients == if ok then old(clients) + {task} else old(clients)
    {
      hide HostsBounded, Local;
      LocalCount(clients, tcp, pending);
      ArrivalSplits(clients, tcp, pending.Keys, task);
      hide Accounted, Parts;
      if |clients| - |tcp| - |pending| >= limits.clients {
        return false;
      }
      LocalKeeps(limits, clients, tcp, pending, task);
      clients := clients + {task};
      return true;
    }

    method CountOnHost(host: Host) returns (n: nat)
      ensures n == |OnHost(pending, host)|
    {
      n := 0;
      var left := pending.Keys;
      ghost var seen: set<Task> := {};
      while left != {}
        invariant seen + left == pending.Keys && seen !! left
        invariant n == |set t | t in seen && pending[t] == host|
        decreases |left|
      {
        var t :| t in left;
        ghost var before := set u | u in seen && pending[u] == host;
        left, seen := left - {t}, seen + {t};
        ghost var after := set u | u in seen && pending[u] == host;
        if pending[t] == host {
          assert after == before + {t};
          n := n + 1;
        } else {
          assert after == before;
        }
      }
      assert seen == pending.Keys;
      assert OnHost(pending, host) == set t | t in seen && pending[t] == host;
    }

    /** A remote connection: refused exactly when either waiting limit is reached; the limit
        on local clients does not apply to it. */
    method AcceptTcp(task: Task, host: Host) returns (ok: bool)
      requires Valid() && task !in clients
      modifies this
      ensures Valid() && tcp == old(tcp) && Unix() == old(Unix())
      ensures ok <==> |old(pending)| < limits.pending && |OnHost(old(pending), host)| < limits.pendingPerHost
      ensures pending == if ok then old(pending)[task := host] else old(pending)
      ensures clients == if ok then old(clients) + {task} else old(clients)
    {
      hide Accounted, Local;
      var waiting := CountOnHost(host);
      if |pending| >= limits.pending || waiting >= limits.pendingPerHost {
        return false;
      }
      PendingKeeps(limits, clients, tcp, pending, task, host);
      clients := clients + {task};
      pending := pending[task := host];
      return true;
    }

    /** A waiting client has proved itself: it becomes a remote client, if there is room. */
    method Authenticate(task: Task) returns (ok: bool)
      requires Valid()
      modifies this
      ensures Valid() && clients == old(clients) && Unix() == old(Unix())
      ensures ok <==> task in old(pending) && |old(tcp)| < limits.tcp
      ensures tcp == if ok then old(tcp) + {task} else old(tcp)
      ensures pending == if ok then old(pending) - {task} else old(pending)
    {
      hide Accounted, Local;
      if task !in pending || |tcp| >= limits.tcp {
        return false;
      }
      AuthenticationKeeps(limits, clients, tcp, pending, task);
      pending := pending - {task};
      tcp := tcp + {task};
      return true;
    }

    /** A client's task has ended. */
    method Done(task: Task)
      requires Valid()
      modifies this
      ensures Valid()
      ensures clients == old(clients) - {task} && tcp == old(tcp) - {task} && pending == old(pending) - {task}
      ensures Unix() == old(Unix()) - {task}
    {
      hide Accounted, Local;
      EndKeeps(limits, clients, tcp, pending, task);
      clients, tcp, pending := clients - {task}, tcp - {task}, pending - {task};
    }
  }
}
