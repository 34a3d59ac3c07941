/** The session object: the fields behind the lock, its critical sections and the files it
    keeps. Every critical section is tied to the transition system. */
module Session {
  import opened Common
  import opened Codec
  import opened SessionProtocol
  import opened SessionTheorems

  /** The state directory. */
  class Disk {
    var files: map<string, seq<byte>>

    constructor ()
      ensures files == map[]
    {
      files := map[];
    }
  }

  /** The directory without the file `path`. */
  function Without(files: map<string, seq<byte>>, path: Option<string>): map<string, seq<byte>> {
    if path.Some? then files - {path.value} else files
  }

  function FileIn(files: map<string, seq<byte>>, path: Option<string>): Option<seq<byte>> {
    if path.Some? && path.value in files then Some(files[path.value]) else None
  }

  lemma WithoutCommutes(files: map<string, seq<byte>>, p: Option<string>, q: Option<string>)
    ensures Without(Without(files, p), q) == Without(Without(files, q), p)
    ensures Without(Without(files, p), p) == Without(files, p)
  {
  }

  // ---------------------------------------------------------------- subscription entries

  /** The map a list of entries builds; a later entry replaces an earlier one. */
  function SubMap(entries: seq<SubEntry>): map<string, QoS> {
    if entries == [] then map[]
    else SubMap(entries[..|entries| - 1])[entries[|entries| - 1].0 := entries[|entries| - 1].1]
  }

  lemma SubMapSnoc(entries: seq<SubEntry>, e: SubEntry)
    ensures SubMap(entries + [e]) == SubMap(entries)[e.0 := e.1]
  {
    assert (entries + [e])[..|entries|] == entries;
  }

  /** A filter has the QoS of its last entry. */
  lemma {:induction false} SubMapIs(entries: seq<SubEntry>, f: string)
    ensures f in SubMap(entries) <==> exists k :: 0 <= k < |entries| && entries[k].0 == f
    ensures f in SubMap(entries) ==>
      exists k ::
        && 0 <= k < |entries| && entries[k] == (f, SubMap(entries)[f])
        && forall j :: k < j < |entries| ==> entries[j].0 != f
  {
    if entries != [] {
      var n := |entries| - 1;
      SubMapIs(entries[..n], f);
      if entries[n].0 == f {
        assert entries[n] == (f, SubMap(entries)[f]);
      } else if f in SubMap(entries[..n]) {
        var k :| 0 <= k < n && entries[..n][k] == (f, SubMap(entries[..n])[f])
          && forall j :: k < j < n ==> entries[..n][j].0 != f;
        assert entries[k] == (f, SubMap(entries)[f]);
        forall j | k < j < |entries|
          ensures entries[j].0 != f
        {
          if j < n {
            assert entries[..n][j] == entries[j];
          }
        }
      }
    }
  }

  predicate ShortKeys(subs: map<string, QoS>) {
    forall f :: f in subs ==> ShortText(f)
  }

  /** The list holds each entry of the map exactly once. */
  predicate SubLists(entries: seq<SubEntry>, subs: map<string, QoS>) {
    SubMap(entries) == subs && |entries| == |subs|
  }

  lemma SubListsSnoc(entries: seq<SubEntry>, subs: map<string, QoS>, f: string, q: QoS)
    requires SubLists(entries, subs) && f !in subs
    ensures SubLists(entries + [(f, q)], subs[f := q])
  {
    SubMapSnoc(entries, (f, q));
    assert subs[f := q].Keys == subs.Keys + {f};
  }

  function SubsAmong(subs: map<string, QoS>, filters: set<string>): map<string, QoS> {
    map f | f in subs && f in filters :: subs[f]
  }

  lemma SubsAmongNext(subs: map<string, QoS>, filters: set<string>, f: string)
    requires f in subs && f !in filters
    ensures f !in SubsAmong(subs, filters) && SubsAmong(subs, filters + {f}) == SubsAmong(subs, filters)[f := subs[f]]
  {
  }

  lemma SubsAmongEnds(subs: map<string, QoS>)
    ensures SubsAmong(subs, {}) == map[] && SubsAmong(subs, subs.Keys) == subs
  {
  }

  /** The entries of a map in whatever order it is iterated. */
  method Entries(subs: map<string, QoS>) returns (entries: seq<SubEntry>)
    ensures SubLists(entries, subs)
    ensures forall e :: e in entries ==> e.0 in subs
  {
    entries := [];
    var keys, listed: set<string> := subs.Keys, {};
    SubsAmongEnds(subs);
    while keys != {}
      invariant listed + keys == subs.Keys && listed !! keys
      invariant SubLists(entries, SubsAmong(subs, listed))
      invariant forall e :: e in entries ==> e.0 in subs
      decreases keys
    {
      var f :| f in keys;
      SubsAmongNext(subs, listed, f);
      SubListsSnoc(entries, SubsAmong(subs, listed), f, subs[f]);
      entries := entries + [(f, subs[f])];
      keys := keys - {f};
      listed := listed + {f};
    }
    assert listed == subs.Keys;
  }

  /** A subscription file that says exactly this. */
  predicate SubsFileHolds(file: Option<seq<byte>>, client: string, identity: string, subs: map<string, QoS>) {
    if subs == map[] then file.None?
    else
      var r := DecodeSubs(file);
      && r.Ok? && r.value.client == client && r.value.identity == identity
      && SubLists(r.value.entries, subs)
  }

  /** A subscription file that, if it can be read, is this client's. */
  predicate NamesClient(file: Option<seq<byte>>, client: string) {
    var r := DecodeSubs(file);
    r.Ok? ==> r.value.client == client
  }

  lemma TruthNamesClient(file: Option<seq<byte>>, client: string, identity: string, subs: map<string, QoS>)
    requires SubsFileHolds(file, client, identity, subs)
    ensures NamesClient(file, client)
  {
  }

  /** How a session stands with the state directory: whether its subscription file tells the
      truth, whether it names the session's client, and all files that are not the session's. */
  datatype Records = Records(told: bool, named: bool, others: map<string, seq<byte>>)

  /** What every operation keeps of that. */
  predicate InOrder(now: Records, before: Records) {
    (before.told ==> now.told) && (before.named ==> now.named) && now.others == before.others
  }

  datatype Delivery = Sent | Queued | Dropped | Blocked

  /** Packet identifiers cycle through 1..65535. */
  function PkidAfter(id: nat): nat {
    (id + 1) % 0x10000
  }

  /** The identifier handed out `n` calls after `first`. */
  function NthPkid(first: nat, n: nat): nat {
    if n == 0 then first
    else
      var next := PkidAfter(NthPkid(first, n - 1));
      if next == 0 then 1 else next
  }

  /** The skip of 0 only matters at the wrap. */
  lemma PkidStep(id: nat)
    requires 0 < id < 0x10000
    ensures (if PkidAfter(id) == 0 then 1 else PkidAfter(id)) == if id == 0xFFFF then 1 else id + 1
  {
  }

  /** `n` calls advance the identifier by `n`, wrapping past 65535 to 1. */
  lemma {:induction false} NthPkidCycles(first: nat, n: nat)
    requires 0 < first < 0x10000 && n < 0xFFFF
    ensures NthPkid(first, n) == if first + n < 0x10000 then first + n else first + n - 0xFFFF
  {
    if n > 0 {
      NthPkidCycles(first, n - 1);
      PkidStep(NthPkid(first, n - 1));
    }
  }

  lemma {:induction false} NthPkidSplit(first: nat, i: nat, n: nat)
    requires 0 < first < 0x10000
    ensures 0 < NthPkid(first, i) < 0x10000
    ensures NthPkid(first, i + n) == NthPkid(NthPkid(first, i), n)
    decreases i + n
  {
    if n > 0 {
      NthPkidSplit(first, i, n - 1);
    } else if i > 0 {
      NthPkidSplit(first, i - 1, 0);
      PkidStep(NthPkid(first, i - 1));
    }
  }

  /** No identifier is 0, and none comes back within 65535 calls. */
  lemma PkidsDistinct(first: nat, i: nat, j: nat)
    requires 0 < first < 0x10000 && i < j < i + 0xFFFF
    ensures 0 < NthPkid(first, i) < 0x10000 && NthPkid(first, i) != NthPkid(first, j)
  {
    NthPkidSplit(first, i, j - i);
    NthPkidCycles(NthPkid(first, i), j - i);
  }

  class SessionState {
    const clientId: string
    const maxQueue: nat
    const slowGrace: bool
    const queuePath: Option<string>
    const subsPath: Option<string>
    const disk: Disk

    var pkid: nat
    var epoch: nat
    var sink: Option<ChanId>
    var kick: Option<nat>
    var kickReason: Option<KickReason>
    var identity: string
    var subs: map<string, QoS>
    var queue: seq<Msg>
    var dropped: nat
    var offlineSince: Option<Time>

    predicate Valid()
      reads `pkid, `identity, `subs
    {
      && pkid < 0x10000
      && (queuePath.Some? && subsPath.Some? ==> queuePath != subsPath)
      && ShortText(clientId) && ShortText(identity) && ShortKeys(subs)
    }

    function Cfg(): Config {
      Config(maxQueue, slowGrace, queuePath.Some?)
    }

    function View(): Inner
      reads `epoch, `sink, `kick, `kickReason, `queue, `dropped, `offlineSince
    {
      Inner(epoch, sink, kick, kickReason, queue, dropped, offlineSince)
    }

    function File(path: Option<string>): Option<seq<byte>>
      reads disk
    {
      FileIn(disk.files, path)
    }

    /** The session's fields and its queue file inside the environment `env`. */
    function Whole(env: Env): State
      reads `epoch, `sink, `kick, `kickReason, `queue, `dropped, `offlineSince, disk
    {
      State(View(), env.(file := File(queuePath)))
    }

    /** The subscription file says what the session says. */
    predicate SubsOnDisk()
      reads `identity, `subs, disk
    {
      subsPath.Some? ==> SubsFileHolds(File(subsPath), clientId, identity, subs)
    }

    function Books(): Records
      reads `identity, `subs, disk
    {
      Records(SubsOnDisk(), NamesClient(File(subsPath), clientId), Without(Without(disk.files, queuePath), subsPath))
    }

    lemma TruthIsInOrder()
      requires SubsOnDisk() && subsPath.Some?
      ensures NamesClient(File(subsPath), clientId)
    {
      TruthNamesClient(File(subsPath), clientId, identity, subs);
    }

    constructor (clientId: string, maxQueue: nat, slowGrace: bool,
                 queuePath: Option<string>, subsPath: Option<string>, disk: Disk)
      requires ShortText(clientId) && (queuePath.Some? && subsPath.Some? ==> queuePath != subsPath)
      ensures Valid()
      ensures this.clientId == clientId && this.maxQueue == maxQueue && this.slowGrace == slowGrace
      ensures this.queuePath == queuePath && this.subsPath == subsPath && this.disk == disk
      ensures View() == Boot(Cfg(), File(queuePath), 0).inner
      ensures identity == "" && subs == map[] && pkid == 1
    {
      var restored: seq<Msg> := [];
      if queuePath.Some? {
        var loaded := LoadQueue(FileIn(disk.files, queuePath), maxQueue);
        if loaded.Ok? {
          restored := loaded.value;
        }
      }
      this.clientId, this.maxQueue, this.slowGrace := clientId, maxQueue, slowGrace;
      this.queuePath, this.subsPath, this.disk := queuePath, subsPath, disk;
      pkid, epoch, sink, kick, kickReason := 1, 0, None, None, None;
      identity, subs, queue, dropped, offlineSince := "", map[], restored, 0, None;
    }

    /** The next packet identifier: the counter's value, skipping the invalid 0. */
    method NextPkid() returns (id: nat)
      requires pkid < 0x10000
      modifies `pkid
      ensures 0 < id < 0x10000 && pkid == PkidAfter(id)
      ensures id == if old(pkid) == 0 then 1 else old(pkid)
    {
      id := 0;
      while id == 0
        invariant pkid < 0x10000 && id < 0x10000
        invariant id == 0 ==> pkid == old(pkid) || (old(pkid) == 0 && pkid == 1)
        invariant id != 0 ==> pkid == PkidAfter(id) && id == if old(pkid) == 0 then 1 else old(pkid)
        decreases id == 0, pkid == 0
      {
        id := pkid;
        pkid := (pkid + 1) % 0x10000;
      }
    }

    /** `n` calls in a row return the next `n` identifiers of the cycle. */
    method TakePkids(n: nat) returns (ids: seq<nat>)
      requires pkid < 0x10000
      modifies `pkid
      ensures pkid < 0x10000 && |ids| == n
      ensures forall i :: 0 <= i < n ==> ids[i] == NthPkid(if old(pkid) == 0 then 1 else old(pkid), i)
      ensures forall i, j :: 0 <= i < j < n && j < i + 0xFFFF ==> ids[i] != ids[j]
    {
      ids := [];
      ghost var first := if pkid == 0 then 1 else pkid;
      while |ids| < n
        invariant pkid < 0x10000 && |ids| <= n
        invariant |ids| == 0 ==> pkid == old(pkid)
        invariant |ids| > 0 ==> pkid == PkidAfter(ids[|ids| - 1])
        invariant forall i :: 0 <= i < |ids| ==> ids[i] == NthPkid(first, i)
      {
        var id := NextPkid();
        ids := ids + [id];
      }
      forall i, j | 0 <= i < j < n && j < i + 0xFFFF
        ensures ids[i] != ids[j]
      {
        PkidsDistinct(first, i, j);
      }
    }

    // -------------------------------------------------------------- files

    method RemoveFile(path: Option<string>)
      modifies disk
      ensures File(path).None?
      ensures forall p :: p != path ==> FileIn(disk.files, p) == FileIn(old(disk.files), p)
      ensures disk.files == Without(old(disk.files), path)
    {
      if path.Some? {
        disk.files := disk.files - {path.value};
      }
    }

    method WriteFile(path: string, image: seq<byte>)
      modifies disk
      ensures File(Some(path)) == Some(image)
      ensures forall p :: p != Some(path) ==> FileIn(disk.files, p) == FileIn(old(disk.files), p)
      ensures Without(disk.files, Some(path)) == Without(old(disk.files), Some(path))
    {
      disk.files := disk.files[path := image];
    }

    method SaveQueueFile()
      requires queuePath.Some? && subsPath.Some? ==> queuePath != subsPath
      modifies disk
      ensures File(queuePath) == PersistQueue(Cfg(), old(File(queuePath)), queue)
      ensures File(subsPath) == old(File(subsPath)) && InOrder(Books(), old(Books()))
      ensures queuePath.None? || !AllEncodable(queue) ==> disk.files == old(disk.files)
    {
      if queuePath.Some? {
        var image := SaveQueue(queue);
        if image.Ok? {
          WriteFile(queuePath.value, image.value);
        }
      }
    }

    method SubsImage(entries: seq<SubEntry>) returns (image: seq<byte>)
      requires Valid() && entries != [] && SubLists(entries, subs)
      requires forall e :: e in entries ==> e.0 in subs
      ensures SubsFileHolds(Some(image), clientId, identity, subs)
    {
      SubsRoundTrip(clientId, identity, entries);
      var saved := SaveSubs(clientId, identity, entries);
      image := saved.value;
    }

    method RewriteSubs()
      requires Valid()
      modifies disk
      ensures SubsOnDisk() && File(queuePath) == old(File(queuePath))
      ensures Without(disk.files, subsPath) == Without(old(disk.files), subsPath)
    {
      if subsPath.Some? {
        var entries := Entries(subs);
        if entries == [] {
          RemoveFile(subsPath);
        } else {
          var image := SubsImage(entries);
          WriteFile(subsPath.value, image);
        }
      }
    }

    /** Write the subscription file, or remove it when nothing is subscribed. */
    method PersistSubs()
      requires Valid()
      modifies disk
      ensures SubsOnDisk() && File(queuePath) == old(File(queuePath)) && InOrder(Books(), old(Books()))
      ensures Without(disk.files, subsPath) == Without(old(disk.files), subsPath)
    {
      WithoutCommutes(disk.files, queuePath, subsPath);
      RewriteSubs();
      WithoutCommutes(disk.files, queuePath, subsPath);
      if subsPath.Some? {
        TruthIsInOrder();
      }
    }

    // -------------------------------------------------------------- connections

    /** The connection's identity becomes the session's, in the file too. */
    method Adopt(identity: string)
      requires Valid() && ShortText(identity)
      modifies `identity, disk
      ensures Valid() && this.identity == identity
      ensures InOrder(Books(), old(Books()))
      ensures subsPath.None? ==> disk.files == old(disk.files)
    {
      if this.identity != identity {
        this.identity := identity;
        if subs != map[] {
          PersistSubs();
        }
      }
    }

    /** Hand over the queue and drop its file. */
    method DrainQueue() returns (backlog: seq<Msg>)
      requires queuePath.Some? && subsPath.Some? ==> queuePath != subsPath
      modifies `queue, disk
      ensures backlog == old(queue) && queue == []
      ensures File(queuePath).None? && InOrder(Books(), old(Books()))
      ensures disk.files == Without(old(disk.files), queuePath)
    {
      WithoutCommutes(old(disk.files), queuePath, queuePath);
      backlog := queue;
      queue := [];
      RemoveFile(queuePath);
    }

    /** The newest connection's channel becomes the sink. */
    method TakeOver(ch: ChanId)
      modifies `epoch, `sink, `kick, `kickReason, `offlineSince
      ensures View() == AttachInner(old(View()), ch).(queue := queue)
    {
      if kick.Some? {
        kickReason := Some(Takeover);
      }
      epoch := epoch + 1;
      sink := Some(ch);
      kick := Some(epoch);
      offlineSince := None;
    }

    /** A connection takes the session over and receives everything queued. */
    method AttachConn(identity: string, ch: ChanId) returns (e: nat, backlog: seq<Msg>)
      requires Valid() && ShortText(identity)
      modifies `epoch, `sink, `kick, `kickReason, `offlineSince, `identity, `queue, disk
      ensures Valid() && View() == AttachInner(old(View()), ch)
      ensures e == epoch && backlog == old(queue) && this.identity == identity
      ensures File(queuePath).None? && InOrder(Books(), old(Books()))
      ensures queuePath.None? && subsPath.None? ==> disk.files == old(disk.files)
    {
      TakeOver(ch);
      Adopt(identity);
      e := epoch;
      backlog := DrainQueue();
    }

    /** A connection ends; false if a newer one already took over. */
    method DetachConn(e: nat, now: Time) returns (current: bool)
      modifies `sink, `kick, `offlineSince
      ensures current == (old(epoch) == e)
      ensures View() == DetachInner(old(View()), e, now)
      ensures if old(epoch) == e then sink == None && kick == None && offlineSince == Some(now)
        else sink == old(sink) && kick == old(kick) && offlineSince == old(offlineSince)
    {
      if epoch != e {
        return false;
      }
      sink := None;
      kick := None;
      offlineSince := Some(now);
      current := true;
    }

    method KickCurrent()
      modifies `kickReason
      ensures View() == KickInner(old(View()))
      ensures kickReason == if kick.Some? then Some(Takeover) else old(kickReason)
    {
      if kick.Some? {
        kickReason := Some(Takeover);
      }
    }

    method EvictSlow(ch: ChanId, now: Time)
      modifies `sink, `kickReason, `offlineSince
      ensures View() == EvictInner(old(View()), ch, now)
      ensures if old(sink) == Some(ch)
        then sink == None && kickReason == Some(SlowConsumer) && offlineSince == Some(now)
        else sink == old(sink) && kickReason == old(kickReason) && offlineSince == old(offlineSince)
    {
      if sink != Some(ch) {
        return;
      }
      kickReason := Some(SlowConsumer);
      sink := None;
      offlineSince := Some(now);
    }

    method ClearSink(ch: ChanId, now: Time)
      modifies `sink, `offlineSince
      ensures View() == ClearInner(old(View()), ch, now)
      ensures if old(sink) == Some(ch) then sink == None && offlineSince == Some(now)
        else sink == old(sink) && offlineSince == old(offlineSince)
    {
      if sink == Some(ch) {
        sink := None;
        offlineSince := Some(now);
      }
    }

    /** Offline for longer than `expiry`. */
    method IsExpired(expiry: nat, now: Time) returns (b: bool)
      ensures b <==> Expired(View(), now, expiry)
    {
      match offlineSince {
        case None => b := false;
        case Some(since) => b := now - since > expiry;
      }
    }

    /** Append to the bounded queue, dropping the oldest message if it is full. */
    method Push(m: Msg)
      requires maxQueue > 0
      modifies `queue, `dropped
      ensures View() == EnqueueInner(old(View()), m, maxQueue)
    {
      if |queue| >= maxQueue {
        queue := queue[1..];
        dropped := dropped + 1;
      }
      queue := queue + [m];
    }

    /** The locked part of the offline path; false means a connection is back. */
    method TryEnqueue(m: Msg) returns (queued: bool)
      requires maxQueue > 0 && (queuePath.Some? && subsPath.Some? ==> queuePath != subsPath)
      modifies `queue, `dropped, disk
      ensures queued == sink.None?
      ensures View() == if queued then EnqueueInner(old(View()), m, maxQueue) else old(View())
      ensures queued && |old(queue)| < maxQueue ==> queue == old(queue) + [m] && dropped == old(dropped)
      ensures queued && |old(queue)| >= maxQueue ==> queue == old(queue)[1..] + [m] && dropped == old(dropped) + 1
      ensures File(queuePath) ==
        if queued then PersistQueue(Cfg(), old(File(queuePath)), queue) else old(File(queuePath))
      ensures File(subsPath) == old(File(subsPath)) && InOrder(Books(), old(Books()))
      ensures queuePath.None? || !queued || !AllEncodable(queue) ==> disk.files == old(disk.files)
    {
      if sink.Some? {
        return false;
      }
      Push(m);
      SaveQueueFile();
      queued := true;
    }

    // -------------------------------------------------------------- subscriptions

    method InsertSub(filter: string, qos: QoS)
      requires Valid() && ShortText(filter)
      modifies `subs, disk
      ensures Valid() && subs == old(subs)[filter := qos] && SubsOnDisk()
      ensures Without(disk.files, subsPath) == Without(old(disk.files), subsPath)
      ensures File(queuePath) == old(File(queuePath)) && InOrder(Books(), old(Books()))
    {
      subs := subs[filter := qos];
      PersistSubs();
    }

    method RemoveSub(filter: string)
      requires Valid()
      modifies `subs, disk
      ensures Valid() && subs == old(subs) - {filter} && SubsOnDisk()
      ensures Without(disk.files, subsPath) == Without(old(disk.files), subsPath)
      ensures File(queuePath) == old(File(queuePath)) && InOrder(Books(), old(Books()))
    {
      subs := subs - {filter};
      PersistSubs();
    }

    method AbortSubs()
      modifies `subs
      ensures subs == map[]
    {
      subs := map[];
    }

    /** The files this session keeps. */
    function OwnPaths(): set<string> {
      (if queuePath.Some? then {queuePath.value} else {}) + (if subsPath.Some? then {subsPath.value} else {})
    }

    method DiscardStateFiles()
      modifies disk
      ensures disk.files == old(disk.files) - OwnPaths()
    {
      RemoveFile(queuePath);
      RemoveFile(subsPath);
    }
  }
}
