/** A whole node at work: every sequence of what connections, forwarding tasks, the expiry sweep,
    sessions left behind and restarts do, and what it keeps of each client's files. */
module NodeRuns {
  import opened Codec
  import opened SessionProtocol
  import opened Session
  import opened Registry
  import opened Auth
  import opened Restart
  import opened Node
  import opened Strays

  /** Everything that left the registry is aside. */
  ghost predicate AllAside(reg: SessionRegistry, strays: set<SessionState>)
    reads reg, strays
  {
    forall z {:trigger Aside(reg, z)} :: z in strays ==> Aside(reg, z)
  }

  /** What can happen to a node. Rules change with the configuration, so each use names its own.
      `DoStray` is a step of any session that has left the registry. */
  datatype Op =
    | DoConnect(client: string, identity: string, clean: bool, ch: ChanId)
    | DoDisconnect(client: string, epoch: nat, clean: bool, now: Time)
    | DoAct(client: string, act: Act, acl: Acl)
    | DoStray(step: Stray)
    | DoExpire(expiry: nat, now: Time)
    | DoRestart(acl: Acl)

  predicate Proper(op: Op) {
    match op
    case DoConnect(client, identity, _, _) => client != "" && ShortText(client) && ShortText(identity)
    case DoDisconnect(_, epoch, _, _) => epoch > 0
    case DoAct(_, act, _) => ShortAct(act)
    case DoStray(step) => ShortStray(step)
    case _ => true
  }

  /** What an operation keeps of a client's files. */
  predicate StillTold(reg: SessionRegistry, c: string, truthful: bool, queueTold: bool)
    reads reg, reg.sessions.Values, reg.disk
  {
    (truthful ==> reg.Truthful(c)) && (queueTold ==> reg.QueueTold(c))
  }

  // ---------------------------------------------------------------- what leaves the registry

  method StepConnect(reg: SessionRegistry, strays: set<SessionState>, client: string, identity: string, clean: bool,
                     ch: ChanId, ghost c: string)
    returns (strays': set<SessionState>)
    requires Sound(reg) && AllAside(reg, strays)
    requires client != "" && ShortText(client) && ShortText(identity)
    modifies reg`sessions, reg.disk, if client in reg.sessions then {reg.sessions[client]} else {}
    ensures Sound(reg) && AllAside(reg, strays')
    ensures strays' == if clean && client in old(reg.sessions) then strays + {old(reg.sessions)[client]} else strays
    ensures forall k :: k in reg.sessions ==>
      fresh(reg.sessions[k]) || (k in old(reg.sessions) && reg.sessions[k] == old(reg.sessions)[k])
    ensures StillTold(reg, c, old(reg.Truthful(c)), old(reg.QueueTold(c)))
    ensures Unfiled(reg, c) ==> old(Unfiled(reg, c)) || (client == c && clean)
  {
    strays' := if clean && client in reg.sessions then strays + {reg.sessions[client]} else strays;
    if client in reg.sessions {
      assert reg.Mine(reg.sessions[client], client);
    }
    forall z | z in strays
      ensures reg.Mine(z, z.clientId) && (client in reg.sessions ==> z != reg.sessions[client])
    {
      assert Aside(reg, z);
    }
    var s := Connect(reg, client, identity, clean, ch, c);
    forall z | z in strays'
      ensures Aside(reg, z)
    {
      assert z in strays ==> old(Aside(reg, z));
    }
  }

  method StepDisconnect(reg: SessionRegistry, strays: set<SessionState>, client: string, epoch: nat, clean: bool,
                        now: Time, ghost c: string)
    returns (strays': set<SessionState>)
    requires Sound(reg) && AllAside(reg, strays) && client in reg.sessions && epoch > 0
    modifies reg`sessions, reg.disk, reg.sessions[client]
    ensures Sound(reg) && AllAside(reg, strays') && strays' <= strays + {old(reg.sessions)[client]}
    ensures reg.sessions == old(reg.sessions) || reg.sessions == old(reg.sessions) - {client}
    ensures StillTold(reg, c, old(reg.Truthful(c)), old(reg.QueueTold(c)))
    ensures Unfiled(reg, c) ==> old(Unfiled(reg, c))
  {
    var s := reg.sessions[client];
    assert reg.Mine(reg.sessions[client], client);
    forall z | z in strays
      ensures reg.Mine(z, z.clientId) && z != s
    {
      assert Aside(reg, z);
    }
    Disconnect(reg, client, epoch, clean, now, c);
    strays' := if client in reg.sessions then strays else strays + {s};
    forall z | z in strays'
      ensures Aside(reg, z)
    {
      assert z in strays ==> old(Aside(reg, z));
    }
  }

  method StepAct(reg: SessionRegistry, strays: set<SessionState>, client: string, act: Act, acl: Acl, scope: string,
                 ghost c: string)
    requires Sound(reg) && AllAside(reg, strays) && client in reg.sessions && ShortAct(act)
    modifies reg.disk, reg.sessions[client]
    ensures Sound(reg) && AllAside(reg, strays)
    ensures StillTold(reg, c, old(reg.Truthful(c)), old(reg.QueueTold(c)))
    ensures Unfiled(reg, c) ==> old(Unfiled(reg, c))
  {
    forall z | z in strays
      ensures reg.Mine(z, z.clientId) && z != reg.sessions[client]
    {
      assert Aside(reg, z);
      AsideOfAll(reg, z, client);
    }
    Work(reg, client, acl, scope, act, c);
    forall z | z in strays
      ensures Aside(reg, z)
    {
      assert old(Aside(reg, z));
    }
  }

  method StepExpire(reg: SessionRegistry, strays: set<SessionState>, expiry: nat, now: Time, ghost c: string)
    returns (strays': set<SessionState>)
    requires Sound(reg) && AllAside(reg, strays)
    modifies reg`sessions, reg.disk, (set k | k in reg.Stale(expiry, now) :: reg.sessions[k])`subs
    ensures Sound(reg) && AllAside(reg, strays')
    ensures strays' == strays + old(set k | k in reg.Stale(expiry, now) :: reg.sessions[k])
    ensures reg.sessions == old(reg.sessions - reg.Stale(expiry, now))
    ensures StillTold(reg, c, old(reg.Truthful(c)), old(reg.QueueTold(c)))
    ensures Unfiled(reg, c) ==> old(Unfiled(reg, c))
  {
    var doomed := set k | k in reg.Stale(expiry, now) :: reg.sessions[k];
    forall z | z in strays
      ensures reg.Mine(z, z.clientId) && z !in doomed
    {
      assert Aside(reg, z);
      forall k | k in reg.sessions
        ensures reg.sessions[k] != z
      {
        AsideOfAll(reg, z, k);
      }
    }
    forall k | k in reg.sessions
      ensures reg.sessions[k].clientId == k
    {
      assert reg.Mine(reg.sessions[k], k);
    }
    Expire(reg, expiry, now, c);
    strays' := strays + doomed;
    forall z | z in strays'
      ensures Aside(reg, z)
    {
      assert z in strays ==> old(Aside(reg, z));
    }
  }

  /** A step of one stray; the others stay aside, and so does it. */
  method StepStray(reg: SessionRegistry, strays: set<SessionState>, z: SessionState, step: Stray, scope: string,
                   ghost c: string)
    requires Sound(reg) && AllAside(reg, strays) && z in strays && ShortStray(step)
    modifies reg`sessions, reg.disk, z
    ensures Sound(reg) && AllAside(reg, strays) && reg.sessions == old(reg.sessions)
    ensures z.clientId != c || !old(StrayWrites(z, step)) ==>
      StillTold(reg, c, old(reg.Truthful(c)), old(reg.QueueTold(c)))
    ensures Unfiled(reg, c) ==> old(Unfiled(reg, c))
  {
    assert Aside(reg, z);
    StrayStep(reg, z, step, scope, c);
    forall y | y in strays
      ensures Aside(reg, y)
    {
      assert old(Aside(reg, y));
    }
  }

  // ---------------------------------------------------------------- every run

  /** The session that leaves with an operation, if any, was registered. */
  predicate From(strays': set<SessionState>, strays: set<SessionState>, sessions: map<string, SessionState>) {
    forall z :: z in strays' ==> z in strays || exists k :: k in sessions && sessions[k] == z
  }

  /** One operation on what is registered; one on a client that is not does nothing. */
  method StepNode(reg: SessionRegistry, strays: set<SessionState>, scope: string, op: Op, ghost c: string)
    returns (next: SessionRegistry, strays': set<SessionState>)
    requires Sound(reg) && AllAside(reg, strays) && Proper(op) && !op.DoStray?
    modifies reg`sessions, reg.disk, reg.sessions.Values
    ensures Sound(next) && AllAside(next, strays') && SameNode(next, reg) && (next == reg || fresh(next))
    ensures forall k :: k in next.sessions ==>
      fresh(next.sessions[k]) || (k in old(reg.sessions) && next.sessions[k] == old(reg.sessions)[k])
    ensures From(strays', strays, old(reg.sessions))
    ensures StillTold(next, c, old(reg.Truthful(c)), old(reg.QueueTold(c)))
    ensures Unfiled(next, c) ==>
      (old(Unfiled(reg, c)) && !op.DoRestart?) || (op.DoConnect? && op.client == c && op.clean)
  {
    next, strays' := reg, strays;
    match op {
      case DoConnect(client, identity, clean, ch) =>
        strays' := StepConnect(reg, strays, client, identity, clean, ch, c);
      case DoDisconnect(client, epoch, clean, now) =>
        if client in reg.sessions {
          strays' := StepDisconnect(reg, strays, client, epoch, clean, now, c);
        }
      case DoAct(client, act, acl) =>
        if client in reg.sessions {
          StepAct(reg, strays, client, act, acl, scope, c);
        }
      case DoExpire(expiry, now) =>
        strays' := StepExpire(reg, strays, expiry, now, c);
      case DoRestart(acl) =>
        next := RestartNode(reg, acl, scope, c);
        strays' := {};
    }
  }

  /** A clean connection of client `c` since the last restart. */
  predicate CleanSince(ops: seq<Op>, c: string) {
    ops != [] &&
    var last := ops[|ops| - 1];
    || (last.DoConnect? && last.client == c && last.clean)
    || (!last.DoRestart? && CleanSince(ops[..|ops| - 1], c))
  }

  /** A stray of client `c` is about to write. */
  predicate Meddling(strays: set<SessionState>, op: Op, c: string)
    reads strays
  {
    op.DoStray? && exists z :: z in strays && z.clientId == c && StrayWrites(z, op.step)
  }

  /** From the start of a node over a directory with every file in its place, through any
      sequence of connections, disconnections, subscriptions, deliveries, sweeps, restarts and
      steps of sessions left behind, up to the first moment when one left behind by client `c`
      is about to write a file: all files stay in their places; the subscription file of `c`
      says exactly what the registry says, if at the start it could be read or was not there;
      and its queue file restores the queue in memory exactly if that fits the format. A session
      without files is one that a clean connection created. What such a write does,
      `StrayStep` says. */
  method RunNode(boot: SessionRegistry, acl: Acl, scope: string, ops: seq<Op>, c: string)
    returns (reg: SessionRegistry, strays: set<SessionState>, done: nat)
    requires boot.sessions == map[] && InPlace(boot, boot.disk.files)
    requires forall op :: op in ops ==> Proper(op)
    modifies boot`sessions, boot.disk
    ensures Sound(reg) && AllAside(reg, strays) && SameNode(reg, boot)
    ensures done <= |ops| && (done < |ops| ==> Meddling(strays, ops[done], c))
    ensures (c != "" && StoredSubs(boot, old(boot.disk.files), c).Ok?) || old(boot.FileAt(boot.SubsPath(c))).None?
      ==> reg.Truthful(c)
    ensures reg.QueueTold(c)
    ensures Unfiled(reg, c) ==> CleanSince(ops[..done], c)
  {
    StartUp(boot, acl, scope, c);
    reg, strays, done := boot, {}, 0;
    ghost var settled := reg.Truthful(c);
    while done < |ops|
      invariant 0 <= done <= |ops| && Sound(reg) && AllAside(reg, strays)
      invariant SameNode(reg, boot) && (reg == boot || fresh(reg))
      invariant forall k :: k in reg.sessions ==> fresh(reg.sessions[k])
      invariant forall z :: z in strays ==> fresh(z)
      invariant StillTold(reg, c, settled, true)
      invariant Unfiled(reg, c) ==> CleanSince(ops[..done], c)
    {
      assert ops[done] in ops && ops[..done + 1][..done] == ops[..done];
      if !ops[done].DoStray? {
        reg, strays := StepNode(reg, strays, scope, ops[done], c);
      } else if strays != {} {
        var z :| z in strays;
        if z.clientId == c && StrayWrites(z, ops[done].step) {
          return;
        }
        StepStray(reg, strays, z, ops[done].step, scope, c);
      }
      done := done + 1;
    }
  }
}
