/** Sessions that are no longer registered, replaced by a clean connection, ended or swept, whose
    connections and deliveries still run: what they can still do to their client's files. */
module Strays {
  import opened Common
  import opened Codec
  import opened TopicTheorems
  import opened SessionProtocol
  import opened Session
  import opened Registry
  import opened Auth
  import opened Restart
  import opened Node

  /** A session of this registry that is not registered. */
  predicate Aside(reg: SessionRegistry, z: SessionState)
    reads reg, z
  {
    reg.Mine(z, z.clientId) && (z.clientId in reg.sessions ==> reg.sessions[z.clientId] != z)
  }

  lemma AsideOfAll(reg: SessionRegistry, z: SessionState, k: string)
    requires reg.Valid() && Aside(reg, z) && k in reg.sessions
    ensures reg.sessions[k] != z
  {
    assert reg.Mine(reg.sessions[k], k);
  }

  /** A step of a connection or a delivery, or the end of a connection. */
  datatype Stray = Do(act: Act, acl: Acl) | End(epoch: nat, clean: bool, now: Time)

  predicate ShortStray(e: Stray) {
    match e
    case Do(act, _) => ShortAct(act)
    case End(epoch, _, _) => epoch > 0
  }

  /** The step writes or removes a file. */
  predicate StrayWrites(z: SessionState, e: Stray)
    reads z
  {
    match e
    case Do(act, acl) => Writes(z, acl, act)
    case End(epoch, clean, _) => clean && z.epoch == epoch && z.subsPath.Some?
  }

  function QueueAfter(z: SessionState, act: Act): seq<Msg>
    reads z
  {
    if Queues(z, act) then PushBounded(z.queue, act.msg, z.maxQueue) else z.queue
  }

  function StraySubs(z: SessionState, e: Stray): map<string, QoS>
    reads z
  {
    match e
    case Do(act, acl) => SubsAfter(z, acl, act)
    case End(epoch, clean, _) => if clean && z.epoch == epoch then map[] else z.subs
  }

  /** What a step that writes leaves in the client's two files. */
  predicate Leaves(z: SessionState, e: Stray, subsFile: Option<seq<byte>>, queueFile: Option<seq<byte>>,
                   subsFile0: Option<seq<byte>>, queueFile0: Option<seq<byte>>)
    reads z
  {
    if e.End? then subsFile.None? && queueFile.None?
    else if e.act.Enqueue? then
      subsFile == subsFile0 && AllEncodable(z.queue) && queueFile == Some(EncodeQueue(z.queue).value)
    else queueFile == queueFile0 && SubsFileHolds(subsFile, z.clientId, z.identity, z.subs)
  }

  /** A stray step as its client's files see it. */
  method StrayFiles(reg: SessionRegistry, z: SessionState, e: Stray, scope: string)
    requires reg.Valid() && Aside(reg, z) && ShortStray(e)
    modifies reg`sessions, reg.disk, z
    ensures reg.sessions == old(reg.sessions) && reg.Mine(z, z.clientId)
    ensures reg.OthersKept(reg.disk.files, old(reg.disk.files), z.clientId)
    ensures old(reg.Placed(z.clientId)) ==> reg.Placed(z.clientId)
    ensures z.subs == old(StraySubs(z, e)) && (e.Do? ==> z.queue == old(QueueAfter(z, e.act)))
    ensures !old(StrayWrites(z, e)) ==> reg.disk.files == old(reg.disk.files)
    ensures old(StrayWrites(z, e)) ==>
      Leaves(z, e, reg.FileAt(reg.SubsPath(z.clientId)), reg.FileAt(reg.QueuePath(z.clientId)),
             old(reg.FileAt(reg.SubsPath(z.clientId))), old(reg.FileAt(reg.QueuePath(z.clientId))))
  {
    match e {
      case Do(act, acl) => ActOn(reg, z, z.clientId, acl, scope, act);
      case End(epoch, clean, now) =>
        OwnPathsGone(reg, z, z.clientId, reg.disk.files);
        reg.Detach(z, epoch, clean, now);
    }
  }

  /** And as the rest of the node sees it: no session but its own. */
  method StrayAround(reg: SessionRegistry, z: SessionState, e: Stray, scope: string, ghost c: string)
    requires reg.Valid() && Aside(reg, z) && ShortStray(e)
    modifies reg`sessions, reg.disk, z
    ensures reg.Valid() && Aside(reg, z) && reg.sessions == old(reg.sessions)
    ensures reg.AccountOf(c) == old(reg.AccountOf(c))
    ensures reg.OthersKept(reg.disk.files, old(reg.disk.files), z.clientId)
    ensures old(reg.Placed(z.clientId)) ==> reg.Placed(z.clientId)
    ensures z.subs == old(StraySubs(z, e)) && (e.Do? ==> z.queue == old(QueueAfter(z, e.act)))
    ensures !old(StrayWrites(z, e)) ==> reg.disk.files == old(reg.disk.files)
    ensures old(StrayWrites(z, e)) ==>
      Leaves(z, e, reg.FileAt(reg.SubsPath(z.clientId)), reg.FileAt(reg.QueuePath(z.clientId)),
             old(reg.FileAt(reg.SubsPath(z.clientId))), old(reg.FileAt(reg.QueuePath(z.clientId))))
  {
    forall k | k in reg.sessions
      ensures reg.sessions[k] != z
    {
      AsideOfAll(reg, z, k);
    }
    ghost var t := if c in reg.sessions then Some(reg.sessions[c]) else None;
    StrayFiles(reg, z, e, scope);
    assert t.Some? ==> AccountFor(t.value) == old(AccountFor(t.value));
    forall k | k in reg.sessions
      ensures reg.Mine(reg.sessions[k], k)
    {
      assert old(reg.Mine(reg.sessions[k], k));
    }
  }

  /** The subscriptions that ought to be on disk. */
  function Stored(a: Option<Account>): map<string, QoS> {
    if a.Some? && a.value.durable then a.value.subs else map[]
  }

  /** When a file that tells of one set of subscriptions is truthful about another. */
  lemma TellsIff(file: Option<seq<byte>>, queueFile: Option<seq<byte>>, c: string, identity: string,
                 subs: map<string, QoS>, a: Option<Account>)
    requires SubsFileHolds(file, c, identity, subs)
    ensures Tells(file, queueFile, c, a) <==>
      if a.Some? && a.value.durable then a.value.subs == subs && (subs == map[] || a.value.identity == identity)
      else subs == map[] && (a.Some? ==> queueFile.None?)
  {
  }

  /** A stray step of any kind, at any time. The registry and all files in their places stay, and
      so does the truth about every client but its own. Its own client's files change only if
      the step writes. They then tell of the stray: the truth about its client is kept by an
      enqueue exactly if no session without files is registered, and by a change of
      subscriptions exactly if the registered session happens to have the same. */
  method StrayStep(reg: SessionRegistry, z: SessionState, e: Stray, scope: string, ghost c: string)
    requires Sound(reg) && Aside(reg, z) && ShortStray(e)
    modifies reg`sessions, reg.disk, z
    ensures Sound(reg) && Aside(reg, z) && reg.sessions == old(reg.sessions)
    ensures reg.AccountOf(c) == old(reg.AccountOf(c))
    ensures z.subs == old(StraySubs(z, e)) && (e.Do? ==> z.queue == old(QueueAfter(z, e.act)))
    ensures !old(StrayWrites(z, e)) ==> reg.disk.files == old(reg.disk.files)
    ensures old(StrayWrites(z, e)) ==>
      Leaves(z, e, reg.FileAt(reg.SubsPath(z.clientId)), reg.FileAt(reg.QueuePath(z.clientId)),
             old(reg.FileAt(reg.SubsPath(z.clientId))), old(reg.FileAt(reg.QueuePath(z.clientId))))
    ensures c != z.clientId || !old(StrayWrites(z, e)) ==>
      reg.Truthful(c) == old(reg.Truthful(c)) && reg.QueueTold(c) == old(reg.QueueTold(c))
    ensures c == z.clientId && old(StrayWrites(z, e)) && e.Do? && e.act.Enqueue? && old(reg.Truthful(c)) ==>
      (reg.Truthful(c) <==> reg.AccountOf(c).Some? ==> reg.AccountOf(c).value.durable)
    ensures c == z.clientId && old(StrayWrites(z, e)) && e.Do? && !e.act.Enqueue? && old(reg.Truthful(c)) ==>
      (reg.Truthful(c) <==>
       if reg.AccountOf(c).Some? && reg.AccountOf(c).value.durable
       then reg.AccountOf(c).value.subs == z.subs && (z.subs == map[] || reg.AccountOf(c).value.identity == z.identity)
       else z.subs == map[])
    ensures c == z.clientId && old(StrayWrites(z, e)) && e.End? ==>
      (reg.Truthful(c) <==> Stored(reg.AccountOf(c)) == map[])
  {
    ghost var files := reg.disk.files;
    PlacedFileIsOwn(reg, files, z.clientId);
    ghost var writes := StrayWrites(z, e);
    StrayAround(reg, z, e, scope, c);
    OwnWritesStayInPlace(reg, reg.disk.files, files, z.clientId);
    if c != z.clientId {
      OtherClientsFiles(reg, reg.disk.files, files, z.clientId, c);
    } else if writes && e.Do? && !e.act.Enqueue? {
      TellsIff(reg.FileAt(reg.SubsPath(c)), reg.FileAt(reg.QueuePath(c)), c, z.identity, z.subs, reg.AccountOf(c));
    }
  }

  // ---------------------------------------------------------------- after a clean connection

  method Replace(reg: SessionRegistry, client: string, identity: string, ch: ChanId)
    returns (z: SessionState, b: SessionState, epoch: nat)
    requires reg.Valid() && client in reg.sessions && ShortText(client) && ShortText(identity)
    modifies reg`sessions, reg.disk, reg.sessions[client]
    ensures reg.Valid() && z == old(reg.sessions[client]) && Aside(reg, z) && z.clientId == client
    ensures reg.sessions == old(reg.sessions)[client := b] && b.queuePath.None? && b.subsPath.None?
    ensures fresh(b) && reg.Mine(b, client) && b.epoch == epoch == 1
    ensures z.subs == map[] && z.queue == old(reg.sessions[client].queue) && z.sink == old(reg.sessions[client].sink)
    ensures reg.FileAt(reg.SubsPath(client)).None? && reg.FileAt(reg.QueuePath(client)).None?
  {
    assert reg.Mine(reg.sessions[client], client);
    z := reg.sessions[client];
    var present, backlog;
    b, present, epoch, backlog := reg.Attach(client, identity, true, ch);
    assert reg.Mine(reg.sessions[client], client);
  }

  /** A clean connection discards its client's stored state. It stays discarded, whatever one
      further step the replaced session takes, with exactly two exceptions: if that session keeps
      files, a SUBSCRIBE to something valid and granted brings the subscription file back, and an
      enqueue, of a delivery that had already found it offline, the queue file. */
  method ActOnReplaced(reg: SessionRegistry, client: string, identity: string, ch: ChanId,
                       act: Act, acl: Acl, scope: string)
    requires reg.Valid() && client in reg.sessions && ShortText(client) && ShortText(identity) && ShortAct(act)
    modifies reg`sessions, reg.disk, reg.sessions[client]
    ensures client in reg.sessions && reg.sessions[client].subsPath.None?
    ensures reg.FileAt(reg.SubsPath(client)).Some? <==> old(Writes(reg.sessions[client], acl, act)) && act.AddSub?
    ensures reg.FileAt(reg.QueuePath(client)).Some? <==> old(Writes(reg.sessions[client], acl, act)) && act.Enqueue?
  {
    var z, b, epoch := Replace(reg, client, identity, ch);
    StrayAround(reg, z, Do(act, acl), scope, client);
    if act.DropSub? {
      assert z.subs == map[];
    } else if act.AddSub? && ValidFilter(act.filter) && acl.MaySubscribe(act.user, act.filter) {
      assert act.filter in z.subs;
    }
  }

  /** What was discarded is back: a persistent session is offline, a clean connection replaces it,
      a delivery already under way enqueues, the clean connection ends, and the next persistent
      connection is told that a session was present and receives its queue. */
  method DeliveryBringsBack(reg: SessionRegistry, client: string, identity: string, m: Msg, now: Time, scope: string)
    returns (present: bool, backlog: seq<Msg>)
    requires reg.Valid() && client in reg.sessions && ShortText(client) && ShortText(identity)
    requires reg.QueueTold(client) && reg.sessions[client].subsPath.Some?
    requires Writes(reg.sessions[client], Acl([], false), Act.Enqueue(m))
    modifies reg`sessions, reg.disk, reg.sessions[client]
    ensures present && backlog == PushBounded(old(reg.sessions[client].queue), m, reg.maxQueue)
  {
    assert reg.Mine(reg.sessions[client], client);
    ghost var queue := PushBounded(reg.sessions[client].queue, m, reg.maxQueue);
    var z, b, epoch := Replace(reg, client, identity, 0);
    var e := Do(Act.Enqueue(m), Acl([], false));
    StrayAround(reg, z, e, scope, client);
    assert z.queue == queue;
    present, backlog := EndAndReturn(reg, b, client, identity, now);
    QueueRoundTrip(queue, reg.maxQueue);
  }

  method EndAndReturn(reg: SessionRegistry, b: SessionState, client: string, identity: string, now: Time)
    returns (present: bool, backlog: seq<Msg>)
    requires reg.Valid() && client in reg.sessions && reg.sessions[client] == b && reg.Mine(b, client) && b.epoch == 1
    requires b.queuePath.None? && b.subsPath.None? && ShortText(client) && ShortText(identity)
    modifies reg`sessions, reg.disk, b
    ensures old(reg.FileAt(reg.QueuePath(client))).Some? ==> present
    ensures var cfg := Config(reg.maxQueue, reg.slowGrace, reg.dir.Some?);
      backlog == Restored(cfg, old(reg.FileAt(reg.QueuePath(client))))
  {
    ghost var files := reg.disk.files;
    reg.Detach(b, 1, true, now);
    assert reg.disk.files == files;
    var s, epoch;
    s, present, epoch, backlog := reg.Attach(client, identity, false, 1);
    assert reg.Mine(reg.sessions[client], client);
  }
}
