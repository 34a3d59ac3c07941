/** What each operation of a node on its registered sessions keeps: the registry consistent, every
    subscription file in its place, and one client's files telling what the registry says. */
module Node {
  import opened Common
  import opened Codec
  import opened TopicTheorems
  import opened Auth
  import opened SessionProtocol
  import opened SessionInvariants
  import opened SessionDurability
  import opened Session
  import opened Registry
  import opened Subscriptions
  import opened Restart

  /** The registry is consistent and every subscription file lies in its place. The node never
      registers the empty client id: it hands out an id of its own instead. */
  ghost predicate Sound(reg: SessionRegistry)
    reads reg, reg.sessions.Values, reg.disk
  {
    reg.Valid() && InPlace(reg, reg.disk.files) && "" !in reg.sessions
  }

  /** A registered session that keeps no files although the node has a state directory. */
  predicate Unfiled(reg: SessionRegistry, c: string)
    reads reg, reg.sessions.Values
  {
    reg.dir.Some? && reg.AccountOf(c).Some? && !reg.AccountOf(c).value.durable
  }

  // ---------------------------------------------------------------- other clients' files

  lemma OtherClientsFiles(reg: SessionRegistry, now: Files, files: Files, client: string, c: string)
    requires reg.OthersKept(now, files, client) && c != client
    ensures FileIn(now, reg.SubsPath(c)) == FileIn(files, reg.SubsPath(c))
    ensures FileIn(now, reg.QueuePath(c)) == FileIn(files, reg.QueuePath(c))
  {
    if reg.dir.Some? {
      PathsDistinct(reg.dir.value, c, client);
      PathsDistinct(reg.dir.value, client, c);
      OutsideTwo(now, files, reg.QueuePath(client).value, reg.SubsPath(client).value, reg.SubsPath(c).value);
      OutsideTwo(now, files, reg.QueuePath(client).value, reg.SubsPath(client).value, reg.QueuePath(c).value);
    }
  }

  lemma OutsideTwo(now: Files, files: Files, a: string, b: string, p: string)
    requires Without(Without(now, Some(a)), Some(b)) == Without(Without(files, Some(a)), Some(b))
    requires p != a && p != b
    ensures FileIn(now, Some(p)) == FileIn(files, Some(p))
  {
    var rest, rest0 := Without(Without(now, Some(a)), Some(b)), Without(Without(files, Some(a)), Some(b));
    assert p in now <==> p in rest;
    assert p in files <==> p in rest0;
    if p in now {
      assert now[p] == rest[p] == rest0[p] == files[p];
    }
  }

  // ---------------------------------------------------------------- connections

  /** Different clients have different sessions. */
  lemma OthersAside(reg: SessionRegistry, client: string, c: string)
    requires reg.Valid() && c in reg.sessions && client in reg.sessions && c != client
    ensures reg.sessions[c] != reg.sessions[client]
  {
    assert reg.Mine(reg.sessions[c], c) && reg.Mine(reg.sessions[client], client);
  }

  lemma EmptyQueueTells(file: Option<seq<byte>>, maxQueue: nat, a: Account)
    requires a.queue == [] && (a.durable ==> file.None?)
    ensures QueueTells(file, maxQueue, Some(a))
  {
  }

  /** `Attach` as the client's own files see it. */
  method AdmitOwn(reg: SessionRegistry, client: string, identity: string, clean: bool, ch: ChanId)
    returns (s: SessionState)
    requires reg.Valid() && ShortText(client) && ShortText(identity)
    modifies reg`sessions, reg.disk, if client in reg.sessions then {reg.sessions[client]} else {}
    ensures reg.Valid() && reg.OthersKept(reg.disk.files, old(reg.disk.files), client)
    ensures reg.sessions == old(reg.sessions)[client := s]
    ensures if client in old(reg.sessions) && !clean then s == old(reg.sessions)[client] else fresh(s)
    ensures clean && client in old(reg.sessions) ==> reg.Mine(old(reg.sessions)[client], client)
    ensures (old(reg.Truthful(client)) ==> reg.Truthful(client)) && (old(reg.Placed(client)) ==> reg.Placed(client))
    ensures Unfiled(reg, client) ==> clean || old(Unfiled(reg, client))
    ensures reg.QueueTold(client)
  {
    var present, epoch, backlog;
    s, present, epoch, backlog := reg.Attach(client, identity, clean, ch);
    assert reg.Mine(reg.sessions[client], client);
    EmptyQueueTells(reg.FileAt(reg.QueuePath(client)), reg.maxQueue, AccountFor(s));
  }

  /** And as the rest of the node sees it. */
  method Admit(reg: SessionRegistry, client: string, identity: string, clean: bool, ch: ChanId, ghost c: string)
    returns (s: SessionState)
    requires reg.Valid() && ShortText(client) && ShortText(identity)
    modifies reg`sessions, reg.disk, if client in reg.sessions then {reg.sessions[client]} else {}
    ensures reg.Valid() && reg.OthersKept(reg.disk.files, old(reg.disk.files), client)
    ensures reg.sessions == old(reg.sessions)[client := s]
    ensures if client in old(reg.sessions) && !clean then s == old(reg.sessions)[client] else fresh(s)
    ensures clean && client in old(reg.sessions) ==> reg.Mine(old(reg.sessions)[client], client)
    ensures (old(reg.Truthful(client)) ==> reg.Truthful(client)) && (old(reg.Placed(client)) ==> reg.Placed(client))
    ensures Unfiled(reg, client) ==> clean || old(Unfiled(reg, client))
    ensures reg.QueueTold(client)
    ensures c != client ==> reg.AccountOf(c) == old(reg.AccountOf(c))
  {
    if client in reg.sessions && c in reg.sessions && c != client {
      OthersAside(reg, client, c);
    }
    ghost var t := if c in reg.sessions && c != client then Some(reg.sessions[c]) else None;
    s := AdmitOwn(reg, client, identity, clean, ch);
    assert t.Some? ==> AccountFor(t.value) == old(AccountFor(t.value));
  }

  method Connect(reg: SessionRegistry, client: string, identity: string, clean: bool, ch: ChanId, ghost c: string)
    returns (s: SessionState)
    requires Sound(reg) && client != "" && ShortText(client) && ShortText(identity)
    modifies reg`sessions, reg.disk, if client in reg.sessions then {reg.sessions[client]} else {}
    ensures Sound(reg) && reg.sessions == old(reg.sessions)[client := s]
    ensures if client in old(reg.sessions) && !clean then s == old(reg.sessions)[client] else fresh(s)
    ensures clean && client in old(reg.sessions) ==> reg.Mine(old(reg.sessions)[client], client)
    ensures (old(reg.Truthful(c)) ==> reg.Truthful(c)) && (old(reg.QueueTold(c)) ==> reg.QueueTold(c))
    ensures Unfiled(reg, c) ==> old(Unfiled(reg, c)) || (client == c && clean)
  {
    ghost var files := reg.disk.files;
    PlacedFileIsOwn(reg, files, client);
    s := Admit(reg, client, identity, clean, ch, c);
    OwnWritesStayInPlace(reg, reg.disk.files, files, client);
    if c != client {
      OtherClientsFiles(reg, reg.disk.files, files, client, c);
    }
  }

  /** A session's own files are its client's. */
  lemma OwnPathsGone(reg: SessionRegistry, s: SessionState, client: string, files: Files)
    requires reg.Filed(s, client)
    ensures reg.OthersKept(files - s.OwnPaths(), files, client)
    ensures FileIn(files - s.OwnPaths(), reg.SubsPath(client)) ==
      if s.subsPath.Some? then None else FileIn(files, reg.SubsPath(client))
    ensures FileIn(files - s.OwnPaths(), reg.QueuePath(client)) ==
      if s.queuePath.Some? then None else FileIn(files, reg.QueuePath(client))
  {
  }

  /** `Detach` as the client's own files see it. */
  method LeaveFiles(reg: SessionRegistry, client: string, epoch: nat, clean: bool, now: Time)
    requires reg.Valid() && client in reg.sessions && epoch > 0
    modifies reg`sessions, reg.disk, reg.sessions[client]
    ensures reg.Valid() && reg.OthersKept(reg.disk.files, old(reg.disk.files), client)
    ensures reg.sessions == old(reg.sessions) || reg.sessions == old(reg.sessions) - {client}
    ensures (old(reg.Truthful(client)) ==> reg.Truthful(client)) && (old(reg.Placed(client)) ==> reg.Placed(client))
    ensures Unfiled(reg, client) ==> old(Unfiled(reg, client))
    ensures (old(reg.QueueTold(client)) ==> reg.QueueTold(client)) && reg.Mine(old(reg.sessions)[client], client)
  {
    ghost var s, gone := reg.sessions[client], reg.sessions[client].epoch == epoch && clean;
    assert reg.Mine(s, client);
    OwnPathsGone(reg, s, client, reg.disk.files);
    reg.Detach(reg.sessions[client], epoch, clean, now);
    if gone {
      assert client !in reg.sessions && reg.AccountOf(client) == None;
    } else {
      assert reg.disk.files == old(reg.disk.files) && AccountFor(s) == old(AccountFor(s));
    }
  }

  /** And as the rest of the node sees it. */
  method Leave(reg: SessionRegistry, client: string, epoch: nat, clean: bool, now: Time, ghost c: string)
    requires reg.Valid() && client in reg.sessions && epoch > 0
    modifies reg`sessions, reg.disk, reg.sessions[client]
    ensures reg.Valid() && reg.OthersKept(reg.disk.files, old(reg.disk.files), client)
    ensures reg.sessions == old(reg.sessions) || reg.sessions == old(reg.sessions) - {client}
    ensures (old(reg.Truthful(client)) ==> reg.Truthful(client)) && (old(reg.Placed(client)) ==> reg.Placed(client))
    ensures Unfiled(reg, client) ==> old(Unfiled(reg, client))
    ensures (old(reg.QueueTold(client)) ==> reg.QueueTold(client)) && reg.Mine(old(reg.sessions)[client], client)
    ensures c != client ==> reg.AccountOf(c) == old(reg.AccountOf(c))
  {
    if c in reg.sessions && c != client {
      OthersAside(reg, client, c);
    }
    ghost var t := if c in reg.sessions && c != client then Some(reg.sessions[c]) else None;
    LeaveFiles(reg, client, epoch, clean, now);
    assert t.Some? ==> AccountFor(t.value) == old(AccountFor(t.value));
  }

  /** The end of a connection, on the session registered for its client. */
  method Disconnect(reg: SessionRegistry, client: string, epoch: nat, clean: bool, now: Time, ghost c: string)
    requires Sound(reg) && client in reg.sessions && epoch > 0
    modifies reg`sessions, reg.disk, reg.sessions[client]
    ensures Sound(reg) && (reg.sessions == old(reg.sessions) || reg.sessions == old(reg.sessions) - {client})
    ensures reg.Mine(old(reg.sessions)[client], client)
    ensures (old(reg.Truthful(c)) ==> reg.Truthful(c)) && (old(reg.QueueTold(c)) ==> reg.QueueTold(c))
    ensures Unfiled(reg, c) ==> old(Unfiled(reg, c))
  {
    ghost var files := reg.disk.files;
    PlacedFileIsOwn(reg, files, client);
    Leave(reg, client, epoch, clean, now, c);
    OwnWritesStayInPlace(reg, reg.disk.files, files, client);
    if c != client {
      OtherClientsFiles(reg, reg.disk.files, files, client, c);
    }
  }

  // ---------------------------------------------------------------- one session's own steps

  /** SUBSCRIBE and UNSUBSCRIBE, and the critical sections of `deliver`. */
  datatype Act =
    | AddSub(user: string, filter: string, qos: QoS)
    | DropSub(filter: string)
    | Enqueue(msg: Msg)
    | Evict(ch: ChanId, now: Time)
    | Clear(ch: ChanId, now: Time)

  predicate ShortAct(a: Act) {
    a.AddSub? ==> ShortText(a.filter)
  }

  /** The step appends to the session's queue. */
  predicate Queues(s: SessionState, a: Act)
    reads s
  {
    a.Enqueue? && s.maxQueue > 0 && s.sink.None?
  }

  /** The step writes a file of the session. */
  predicate Writes(s: SessionState, acl: Acl, a: Act)
    reads s
  {
    match a
    case AddSub(user, filter, _) => s.subsPath.Some? && ValidFilter(filter) && acl.MaySubscribe(user, filter)
    case DropSub(_) => s.subsPath.Some?
    case Enqueue(m) => s.queuePath.Some? && Queues(s, a) && AllEncodable(PushBounded(s.queue, m, s.maxQueue))
    case _ => false
  }

  /** The subscriptions after the step. */
  function SubsAfter(s: SessionState, acl: Acl, a: Act): map<string, QoS>
    reads s
  {
    match a
    case AddSub(user, filter, qos) =>
      if ValidFilter(filter) && acl.MaySubscribe(user, filter) then s.subs[filter := Granted(qos)] else s.subs
    case DropSub(filter) => s.subs - {filter}
    case _ => s.subs
  }

  /** A step on a session, registered or not: if it does not write, no file changes; if it does,
      the subscription file says what the session then says, or the queue file holds the queue
      that the session then has, and no other file changes. */
  method Perform(s: SessionState, acl: Acl, scope: string, a: Act)
    requires s.Valid() && InnerOk(s.View()) && ShortAct(a)
    modifies s, s.disk
    ensures s.Valid() && InnerOk(s.View()) && InOrder(s.Books(), old(s.Books()))
    ensures !old(Writes(s, acl, a)) ==> s.disk.files == old(s.disk.files)
    ensures s.subs == old(SubsAfter(s, acl, a))
    ensures a.AddSub? && ValidFilter(a.filter) && acl.MaySubscribe(a.user, a.filter) ==>
      s.subs == old(s.subs)[a.filter := if a.qos == AtMostOnce then AtMostOnce else AtLeastOnce]
    ensures old(Writes(s, acl, a)) && !a.Enqueue? ==> s.SubsOnDisk()
    ensures !a.Enqueue? ==> s.queue == old(s.queue) && s.File(s.queuePath) == old(s.File(s.queuePath))
    ensures a.Enqueue? ==> s.File(s.subsPath) == old(s.File(s.subsPath))
    ensures s.queue == if old(Queues(s, a)) then PushBounded(old(s.queue), a.msg, s.maxQueue) else old(s.queue)
    ensures old(Writes(s, acl, a)) && a.Enqueue? ==> s.File(s.queuePath) == Some(EncodeQueue(s.queue).value)
  {
    match a {
      case AddSub(user, filter, qos) => var _ := Subscriptions.Subscribe(s, acl, user, scope, filter, qos);
      case DropSub(filter) => s.RemoveSub(filter);
      case Enqueue(m) =>
        if s.maxQueue > 0 {
          var _ := s.TryEnqueue(m);
        }
      case Evict(ch, now) => s.EvictSlow(ch, now);
      case Clear(ch, now) => s.ClearSink(ch, now);
    }
  }

  /** After an enqueue, whatever the file held before. */
  lemma EnqueuedTells(file: Option<seq<byte>>, maxQueue: nat, a: Account)
    requires maxQueue > 0 && |a.queue| <= maxQueue
    requires AllEncodable(a.queue) ==> file == Some(EncodeQueue(a.queue).value)
    ensures QueueTells(file, maxQueue, Some(a))
  {
    RestoredEncodable(Config(maxQueue, true, true), file);
    if AllEncodable(a.queue) {
      QueueRoundTrip(a.queue, maxQueue);
    }
  }

  /** A step on any session of the client, registered or not, as the client's files see it. */
  method ActOn(reg: SessionRegistry, z: SessionState, client: string, acl: Acl, scope: string, a: Act)
    requires reg.Mine(z, client) && ShortAct(a)
    modifies reg.disk, z
    ensures reg.Mine(z, client) && reg.OthersKept(reg.disk.files, old(reg.disk.files), client)
    ensures old(reg.Placed(client)) ==> reg.Placed(client)
    ensures !old(Writes(z, acl, a)) ==> reg.disk.files == old(reg.disk.files)
    ensures old(Writes(z, acl, a)) && !a.Enqueue? ==>
      SubsFileHolds(reg.FileAt(reg.SubsPath(client)), client, z.identity, z.subs)
    ensures z.subs == old(SubsAfter(z, acl, a))
    ensures a.Enqueue? ==> reg.FileAt(reg.SubsPath(client)) == old(reg.FileAt(reg.SubsPath(client)))
    ensures !a.Enqueue? ==>
      z.queue == old(z.queue) && reg.FileAt(reg.QueuePath(client)) == old(reg.FileAt(reg.QueuePath(client)))
    ensures z.queue == if old(Queues(z, a)) then PushBounded(old(z.queue), a.msg, z.maxQueue) else old(z.queue)
    ensures old(Writes(z, acl, a)) && a.Enqueue? ==>
      reg.FileAt(reg.QueuePath(client)) == Some(EncodeQueue(z.queue).value)
    ensures z.subsPath.Some? && old(SubsFileHolds(reg.FileAt(reg.SubsPath(client)), client, z.identity, z.subs)) ==>
      SubsFileHolds(reg.FileAt(reg.SubsPath(client)), client, z.identity, z.subs)
  {
    Perform(z, acl, scope, a);
  }

  lemma ActKeepsQueueTold(file: Option<seq<byte>>, file0: Option<seq<byte>>, maxQueue: nat,
                          a: Account, a0: Account, m: Msg)
    requires QueueTells(file0, maxQueue, Some(a0)) && a.durable == a0.durable && maxQueue > 0
    requires a.queue == PushBounded(a0.queue, m, maxQueue)
    requires a.durable && AllEncodable(a.queue) ==> file == Some(EncodeQueue(a.queue).value)
    ensures QueueTells(file, maxQueue, Some(a))
  {
    if a.durable {
      EnqueuedTells(file, maxQueue, a);
    }
  }

  /** A step on the registered session, as its own files see it. */
  method TouchOwn(reg: SessionRegistry, client: string, acl: Acl, scope: string, a: Act)
    requires client in reg.sessions && reg.Mine(reg.sessions[client], client) && ShortAct(a)
    modifies reg.disk, reg.sessions[client]
    ensures reg.Mine(reg.sessions[client], client)
    ensures reg.OthersKept(reg.disk.files, old(reg.disk.files), client)
    ensures (old(reg.Truthful(client)) ==> reg.Truthful(client)) && (old(reg.Placed(client)) ==> reg.Placed(client))
    ensures old(reg.QueueTold(client)) ==> reg.QueueTold(client)
  {
    var s := reg.sessions[client];
    ghost var file0, a0, queues := reg.FileAt(reg.QueuePath(client)), AccountFor(s), Queues(s, a);
    ActOn(reg, s, client, acl, scope, a);
    if queues && QueueTells(file0, reg.maxQueue, Some(a0)) {
      ActKeepsQueueTold(reg.FileAt(reg.QueuePath(client)), file0, reg.maxQueue, AccountFor(s), a0, a.msg);
    }
  }

  /** And as the rest of the node sees it. */
  method Touch(reg: SessionRegistry, client: string, acl: Acl, scope: string, a: Act, ghost c: string)
    requires reg.Valid() && client in reg.sessions && ShortAct(a)
    modifies reg.disk, reg.sessions[client]
    ensures reg.Valid() && reg.OthersKept(reg.disk.files, old(reg.disk.files), client)
    ensures (old(reg.Truthful(client)) ==> reg.Truthful(client)) && (old(reg.Placed(client)) ==> reg.Placed(client))
    ensures old(reg.QueueTold(client)) ==> reg.QueueTold(client)
    ensures c != client ==> reg.AccountOf(c) == old(reg.AccountOf(c))
  {
    assert reg.Mine(reg.sessions[client], client);
    if c in reg.sessions && c != client {
      OthersAside(reg, client, c);
    }
    ghost var t := if c in reg.sessions && c != client then Some(reg.sessions[c]) else None;
    TouchOwn(reg, client, acl, scope, a);
    assert t.Some? ==> AccountFor(t.value) == old(AccountFor(t.value));
    forall k | k in reg.sessions
      ensures reg.Mine(reg.sessions[k], k)
    {
      assert k != client ==> old(reg.Mine(reg.sessions[k], k)) && reg.sessions[k] != reg.sessions[client];
    }
  }

  method Work(reg: SessionRegistry, client: string, acl: Acl, scope: string, a: Act, ghost c: string)
    requires Sound(reg) && client in reg.sessions && ShortAct(a)
    modifies reg.disk, reg.sessions[client]
    ensures Sound(reg)
    ensures (old(reg.Truthful(c)) ==> reg.Truthful(c)) && (old(reg.QueueTold(c)) ==> reg.QueueTold(c))
    ensures Unfiled(reg, c) ==> old(Unfiled(reg, c))
  {
    ghost var files := reg.disk.files;
    PlacedFileIsOwn(reg, files, client);
    Touch(reg, client, acl, scope, a, c);
    OwnWritesStayInPlace(reg, reg.disk.files, files, client);
    if c != client {
      OtherClientsFiles(reg, reg.disk.files, files, client, c);
    }
  }

  // ---------------------------------------------------------------- expiry

  lemma FewerInPlace(reg: SessionRegistry, now: Files, files: Files)
    requires InPlace(reg, files) && forall p :: p in now ==> p in files && now[p] == files[p]
    ensures InPlace(reg, now)
  {
    forall p | p in now
      ensures PlacedAt(reg, now, p)
    {
      assert PlacedAt(reg, files, p);
    }
  }

  /** What a sweep leaves of a client's files. */
  lemma SweptFiles(reg: SessionRegistry, all: map<string, SessionState>, doomed: set<string>, files: Files, c: string)
    requires doomed <= all.Keys && forall k :: k in all ==> reg.Filed(all[k], k)
    ensures var now := files - reg.PathsOf(all, doomed);
      && (c in doomed && all[c].subsPath.Some? ==> FileIn(now, reg.SubsPath(c)).None?)
      && (c in all && c !in doomed && all[c].subsPath.Some? ==>
            FileIn(now, reg.SubsPath(c)) == FileIn(files, reg.SubsPath(c)))
      && (c in all && c !in doomed && all[c].queuePath.Some? ==>
            FileIn(now, reg.QueuePath(c)) == FileIn(files, reg.QueuePath(c)))
      && (FileIn(files, reg.SubsPath(c)).None? ==> FileIn(now, reg.SubsPath(c)).None?)
      && (FileIn(files, reg.QueuePath(c)).None? ==> FileIn(now, reg.QueuePath(c)).None?)
  {
    reg.OtherPathsSafe(all, doomed);
    if c in all && all[c].subsPath.Some? {
      assert reg.Filed(all[c], c) && reg.SubsPath(c).value in all[c].OwnPaths();
      if c in doomed {
        assert reg.SubsPath(c).value in reg.PathsOf(all, doomed);
      }
    }
    if c in all && all[c].queuePath.Some? {
      assert reg.Filed(all[c], c) && reg.QueuePath(c).value in all[c].OwnPaths();
    }
  }

  lemma AllFiled(reg: SessionRegistry)
    requires reg.Valid()
    ensures forall k :: k in reg.sessions ==> reg.Filed(reg.sessions[k], k)
  {
    forall k | k in reg.sessions
      ensures reg.Filed(reg.sessions[k], k)
    {
      assert reg.Mine(reg.sessions[k], k);
    }
  }

  /** `Sweep` as one client's account sees it. */
  method SweepAround(reg: SessionRegistry, expiry: nat, now: Time, ghost c: string)
    requires reg.Valid()
    modifies reg`sessions, reg.disk, (set k | k in reg.Stale(expiry, now) :: reg.sessions[k])`subs
    ensures reg.Valid() && reg.sessions == old(reg.sessions - reg.Stale(expiry, now))
    ensures forall k :: k in old(reg.Stale(expiry, now)) ==> reg.Mine(old(reg.sessions)[k], k)
    ensures reg.disk.files == old(reg.disk.files - reg.PathsOf(reg.sessions, reg.Stale(expiry, now)))
    ensures reg.AccountOf(c) == if c in old(reg.Stale(expiry, now)) then None else old(reg.AccountOf(c))
  {
    ghost var t := if c in reg.sessions && c !in reg.Stale(expiry, now) then Some(reg.sessions[c]) else None;
    if t.Some? {
      forall k | k in reg.Stale(expiry, now)
        ensures reg.sessions[k] != t.value
      {
        OthersAside(reg, k, c);
      }
    }
    reg.Sweep(expiry, now);
    assert t.Some? ==> AccountFor(t.value) == old(AccountFor(t.value));
  }

  method Expire(reg: SessionRegistry, expiry: nat, now: Time, ghost c: string)
    requires Sound(reg)
    modifies reg`sessions, reg.disk, (set k | k in reg.Stale(expiry, now) :: reg.sessions[k])`subs
    ensures Sound(reg) && reg.sessions == old(reg.sessions - reg.Stale(expiry, now))
    ensures forall k :: k in old(reg.Stale(expiry, now)) ==> reg.Mine(old(reg.sessions)[k], k)
    ensures (old(reg.Truthful(c)) ==> reg.Truthful(c)) && (old(reg.QueueTold(c)) ==> reg.QueueTold(c))
    ensures Unfiled(reg, c) ==> old(Unfiled(reg, c))
  {
    ghost var files := reg.disk.files;
    AllFiled(reg);
    SweptFiles(reg, reg.sessions, reg.Stale(expiry, now), files, c);
    SweepAround(reg, expiry, now, c);
    FewerInPlace(reg, reg.disk.files, files);
  }

  // ---------------------------------------------------------------- persistent, but without files

  method ResumeAndLeave(reg: SessionRegistry, client: string, identity: string, ch: ChanId, now: Time)
    returns (s: SessionState)
    requires reg.Valid() && reg.dir.Some? && ShortText(client) && ShortText(identity)
    requires Unfiled(reg, client) ==> reg.FileAt(reg.QueuePath(client)).None?
    modifies reg`sessions, reg.disk, if client in reg.sessions then {reg.sessions[client]} else {}
    ensures reg.Mine(s, client) && client in reg.sessions && reg.sessions[client] == s
    ensures fresh(s) || (client in old(reg.sessions) && s == old(reg.sessions)[client])
    ensures s.queuePath.None? <==> client in old(reg.sessions) && old(reg.sessions)[client].queuePath.None?
    ensures s.sink.None? && s.queue == [] && reg.FileAt(reg.QueuePath(client)).None?
  {
    var present, epoch, backlog;
    s, present, epoch, backlog := reg.Attach(client, identity, false, ch);
    assert reg.Mine(reg.sessions[client], client);
    reg.Detach(s, epoch, false, now);
    assert reg.Mine(reg.sessions[client], client);
  }

  method QueueOne(reg: SessionRegistry, s: SessionState, client: string, m: Msg)
    requires reg.Mine(s, client) && s.sink.None? && s.queue == [] && reg.FileAt(reg.QueuePath(client)).None?
    requires reg.dir.Some? && reg.maxQueue > 0 && Encodable(m)
    modifies s`queue, s`dropped, reg.disk
    ensures s.queue == [m]
    ensures Restored(Config(reg.maxQueue, reg.slowGrace, true), reg.FileAt(reg.QueuePath(client))) ==
      if s.queuePath.None? then [] else [m]
  {
    var queued := s.TryEnqueue(m);
    QueueRoundTrip([m], reg.maxQueue);
  }

  /** A persistent connection gets a session that keeps no files if and only if one without files
      is registered for its client. What is queued for it then is in memory and never on disk, so
      no restart brings it back; in every other case a restart does. */
  method QueuedForPersistent(reg: SessionRegistry, client: string, identity: string, ch: ChanId, now: Time, m: Msg)
    returns (s: SessionState)
    requires reg.Valid() && reg.dir.Some? && ShortText(client) && ShortText(identity)
    requires Unfiled(reg, client) ==> reg.FileAt(reg.QueuePath(client)).None?
    requires reg.maxQueue > 0 && Encodable(m)
    modifies reg`sessions, reg.disk, if client in reg.sessions then {reg.sessions[client]} else {}
    ensures client in reg.sessions && reg.sessions[client] == s && s.queue == [m]
    ensures var unfiled := client in old(reg.sessions) && old(reg.sessions)[client].queuePath.None?;
      && (s.queuePath.None? <==> unfiled)
      && Restored(Config(reg.maxQueue, reg.slowGrace, true), reg.FileAt(reg.QueuePath(client))) ==
         if unfiled then [] else [m]
  {
    s := ResumeAndLeave(reg, client, identity, ch, now);
    QueueOne(reg, s, client, m);
  }
}
