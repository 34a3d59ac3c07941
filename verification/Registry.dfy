/** The registry: which session a connection gets, what a connection's end leaves behind, and
    what a sweep discards. Each call is one step. */
module Registry {
  import opened Common
  import opened Codec
  import opened SessionProtocol
  import opened SessionInvariants
  import opened SessionTheorems
  import opened Session

  // ---------------------------------------------------------------- file names

  function StatePath(dir: Option<string>, client: string, ext: string): Option<string> {
    if dir.Some? then Some(dir.value + "/" + HexName(client) + ext) else None
  }

  const QUEUE_EXT := ".queue"
  const SUBS_EXT := ".subs"

  /** A state file belongs to one client and has one kind. */
  lemma PathsDistinct(dir: string, a: string, b: string)
    ensures StatePath(Some(dir), a, QUEUE_EXT) != StatePath(Some(dir), b, SUBS_EXT)
    ensures a != b ==> StatePath(Some(dir), a, QUEUE_EXT) != StatePath(Some(dir), b, QUEUE_EXT)
    ensures a != b ==> StatePath(Some(dir), a, SUBS_EXT) != StatePath(Some(dir), b, SUBS_EXT)
  {
    ExtensionsDiffer(dir + "/" + HexName(a), dir + "/" + HexName(b));
    if a != b {
      SameExtension(dir + "/", HexName(a), HexName(b), QUEUE_EXT);
      SameExtension(dir + "/", HexName(a), HexName(b), SUBS_EXT);
      if HexName(a) == HexName(b) {
        HexNameInjective(a, b);
      }
    }
  }

  lemma ExtensionsDiffer(x: string, y: string)
    ensures x + QUEUE_EXT != y + SUBS_EXT
  {
    var p, q := x + QUEUE_EXT, y + SUBS_EXT;
    assert p[|p| - 1] == 'e' && q[|q| - 1] == 's';
  }

  lemma SameExtension(dir: string, x: string, y: string, ext: string)
    ensures dir + x + ext == dir + y + ext ==> x == y
  {
    var p, q := dir + x + ext, dir + y + ext;
    if p == q {
      assert |x| == |y|;
      assert x == p[|dir|..|dir| + |x|] && y == q[|dir|..|dir| + |y|];
    }
  }

  // ---------------------------------------------------------------- the registry

  /** What the registry knows of a client; `durable`: its session has files. */
  datatype Account = Account(durable: bool, identity: string, subs: map<string, QoS>, queue: seq<Msg>)

  function AccountFor(s: SessionState): Account
    reads s
  {
    Account(s.subsPath.Some?, s.identity, s.subs, s.queue)
  }

  /** The subscription file holds exactly the subscriptions of a durable session, and is absent
      otherwise. A registered session without files has no queue file either. */
  predicate Tells(subsFile: Option<seq<byte>>, queueFile: Option<seq<byte>>, c: string, a: Option<Account>) {
    if a.Some? && a.value.durable then SubsFileHolds(subsFile, c, a.value.identity, a.value.subs)
    else subsFile.None? && (a.Some? ==> queueFile.None?)
  }

  /** What a restart would read for a durable session is the queue in memory, if and only if
      everything queued fits the file format. */
  predicate QueueTells(queueFile: Option<seq<byte>>, maxQueue: nat, a: Option<Account>) {
    a.Some? && a.value.durable ==>
      && |a.value.queue| <= maxQueue
      && (Restored(Config(maxQueue, true, true), queueFile) == a.value.queue <==> AllEncodable(a.value.queue))
  }

  class SessionRegistry {
    const maxQueue: nat
    const slowGrace: bool
    const dir: Option<string>
    const disk: Disk
    var sessions: map<string, SessionState>

    constructor (maxQueue: nat, slowGrace: bool, dir: Option<string>, disk: Disk)
      ensures this.maxQueue == maxQueue && this.slowGrace == slowGrace && this.dir == dir && this.disk == disk
      ensures sessions == map[] && Valid()
    {
      this.maxQueue, this.slowGrace, this.dir, this.disk := maxQueue, slowGrace, dir, disk;
      sessions := map[];
    }

    function QueuePath(client: string): Option<string> {
      StatePath(dir, client, QUEUE_EXT)
    }

    function SubsPath(client: string): Option<string> {
      StatePath(dir, client, SUBS_EXT)
    }

    /** A session this registry made for `client`: with both of its files, or with none. */
    predicate Filed(s: SessionState, client: string) {
      && s.clientId == client && s.disk == disk && s.maxQueue == maxQueue && s.slowGrace == slowGrace
      && (|| (s.queuePath == QueuePath(client) && s.subsPath == SubsPath(client))
          || (s.queuePath.None? && s.subsPath.None?))
    }

    predicate Mine(s: SessionState, client: string)
      reads s
    {
      Filed(s, client) && s.Valid() && InnerOk(s.View())
    }

    predicate Valid()
      reads this, sessions.Values
    {
      forall c {:trigger Mine(sessions[c], c)} :: c in sessions ==> Mine(sessions[c], c)
    }

    function FileAt(path: Option<string>): Option<seq<byte>>
      reads disk
    {
      FileIn(disk.files, path)
    }

    function AccountOf(c: string): Option<Account>
      reads this, sessions.Values
    {
      if c in sessions then Some(AccountFor(sessions[c])) else None
    }

    /** The client's files say what the registry says. */
    predicate Truthful(c: string)
      reads this, sessions.Values, disk
    {
      Tells(FileAt(SubsPath(c)), FileAt(QueuePath(c)), c, AccountOf(c))
    }

    predicate QueueTold(c: string)
      reads this, sessions.Values, disk
    {
      QueueTells(FileAt(QueuePath(c)), maxQueue, AccountOf(c))
    }

    /** The client's subscription file, if it can be read, is the client's. */
    predicate Placed(c: string)
      reads disk
    {
      NamesClient(FileAt(SubsPath(c)), c)
    }

    method Remove(path: Option<string>)
      modifies disk
      ensures disk.files == Without(old(disk.files), path)
    {
      if path.Some? {
        disk.files := disk.files - {path.value};
      }
    }

    /** A fresh session; a persistent one starts from the queue file it finds. */
    method Create(client: string, clean: bool) returns (s: SessionState)
      requires ShortText(client)
      ensures fresh(s) && Mine(s, client)
      ensures s.queuePath == (if clean then None else QueuePath(client))
      ensures s.subsPath == (if clean then None else SubsPath(client))
      ensures s.View() == Boot(s.Cfg(), s.File(s.queuePath), 0).inner && s.subs == map[] && s.identity == ""
    {
      if dir.Some? {
        PathsDistinct(dir.value, client, client);
      }
      s := new SessionState(client, maxQueue, slowGrace,
                            if clean then None else QueuePath(client),
                            if clean then None else SubsPath(client), disk);
    }

    /** Both state files of a client. */
    method Discard(client: string)
      modifies disk
      ensures FileAt(QueuePath(client)).None? && FileAt(SubsPath(client)).None?
      ensures OthersKept(disk.files, old(disk.files), client)
    {
      Remove(QueuePath(client));
      Remove(SubsPath(client));
      WithoutCommutes(old(disk.files), QueuePath(client), SubsPath(client));
      WithoutCommutes(Without(old(disk.files), SubsPath(client)), QueuePath(client), QueuePath(client));
    }

    /** Nothing but the client's own two files differs. */
    ghost predicate OthersKept(files: map<string, seq<byte>>, files0: map<string, seq<byte>>, client: string) {
      Without(Without(files, QueuePath(client)), SubsPath(client)) ==
      Without(Without(files0, QueuePath(client)), SubsPath(client))
    }

    /** What a clean connection leaves of the session it replaces. */
    predicate Dismissed(s: SessionState, before: Inner, client: string)
      reads s
    {
      Mine(s, client) && s.subs == map[] && s.View() == KickInner(before)
    }

    method Dismiss(s: SessionState, client: string)
      requires Mine(s, client)
      modifies s`subs, s`kickReason
      ensures Dismissed(s, old(s.View()), client)
    {
      s.KickCurrent();
      s.AbortSubs();
    }

    /** A clean connection starts from nothing; what was stored is discarded. */
    method StartClean(client: string) returns (s: SessionState)
      requires Valid() && ShortText(client)
      modifies disk, (if client in sessions then {sessions[client]} else {})`subs,
               (if client in sessions then {sessions[client]} else {})`kickReason
      ensures Valid() && fresh(s) && Mine(s, client)
      ensures s.epoch == 0 && s.subs == map[] && s.queue == [] && s.queuePath.None? && s.subsPath.None?
      ensures client in sessions ==> Dismissed(sessions[client], old(sessions[client].View()), client)
      ensures FileAt(QueuePath(client)).None? && FileAt(SubsPath(client)).None?
      ensures OthersKept(disk.files, old(disk.files), client)
    {
      if client in sessions {
        assert Mine(sessions[client], client);
        Dismiss(sessions[client], client);
      }
      forall c | c in sessions
        ensures Mine(sessions[c], c)
      {
        assert c != client ==> old(Mine(sessions[c], c)) && (client in sessions ==> sessions[c] != sessions[client]);
      }
      Discard(client);
      s := Create(client, true);
    }

    /** The registered session, or a new one that starts from the files. */
    method StartPersistent(client: string) returns (s: SessionState, present: bool)
      requires Valid() && ShortText(client)
      ensures Mine(s, client)
      ensures client in sessions ==> s == sessions[client] && present
      ensures client !in sessions ==>
        && fresh(s) && s.epoch == 0 && s.subs == map[]
        && s.queuePath == QueuePath(client) && s.subsPath == SubsPath(client)
        && s.queue == Restored(s.Cfg(), FileAt(QueuePath(client)))
        && (present <==> FileAt(QueuePath(client)).Some? || FileAt(SubsPath(client)).Some?)
    {
      if client in sessions {
        assert Mine(sessions[client], client);
        s, present := sessions[client], true;
      } else {
        present := FileAt(QueuePath(client)).Some? || FileAt(SubsPath(client)).Some?;
        s := Create(client, false);
      }
    }

    /** The session for a new connection. A clean connection discards whatever was stored
        (section 3.1.2.4 of MQTT 3.1.1); a persistent one resumes the registered session, or
        what the files still hold. Nobody else's session or file is touched. */
    method Attach(client: string, identity: string, clean: bool, ch: ChanId)
      returns (s: SessionState, present: bool, epoch: nat, backlog: seq<Msg>)
      requires Valid() && ShortText(client) && ShortText(identity)
      modifies this`sessions, disk, if client in sessions then {sessions[client]} else {}
      ensures Valid() && sessions == old(sessions)[client := s]
      ensures s.sink == Some(ch) && s.epoch == epoch && s.queue == [] && s.identity == identity
      ensures present <==>
        (&& !clean
         && (client in old(sessions) || old(FileAt(QueuePath(client))).Some? || old(FileAt(SubsPath(client))).Some?))
      ensures client in old(sessions) && !clean ==>
        (&& s == old(sessions[client]) && s.subs == old(sessions[client].subs)
         && epoch == old(sessions[client].epoch) + 1 && backlog == old(sessions[client].queue))
      ensures client !in old(sessions) || clean ==> fresh(s) && epoch == 1 && s.subs == map[]
      ensures clean ==>
        (&& backlog == [] && s.queuePath.None? && s.subsPath.None?
         && FileAt(QueuePath(client)).None? && FileAt(SubsPath(client)).None?)
      ensures clean && client in old(sessions) ==>
        Dismissed(old(sessions)[client], old(sessions[client].View()), client)
      ensures !clean && client !in old(sessions) ==> s.queuePath == QueuePath(client) && s.subsPath == SubsPath(client)
      ensures client !in old(sessions) && !clean ==> backlog == Restored(s.Cfg(), old(FileAt(QueuePath(client))))
      ensures OthersKept(disk.files, old(disk.files), client)
      ensures (old(Truthful(client)) ==> Truthful(client)) && (old(Placed(client)) ==> Placed(client))
      ensures if s.queuePath.Some? then FileAt(QueuePath(client)).None? else clean || disk.files == old(disk.files)
    {
      if clean {
        s, epoch, backlog := AttachClean(client, identity, ch);
        present := false;
      } else {
        s, present, epoch, backlog := AttachPersistent(client, identity, ch);
      }
    }

    method AttachClean(client: string, identity: string, ch: ChanId)
      returns (s: SessionState, epoch: nat, backlog: seq<Msg>)
      requires Valid() && ShortText(client) && ShortText(identity)
      modifies this`sessions, disk, (if client in sessions then {sessions[client]} else {})`subs,
               (if client in sessions then {sessions[client]} else {})`kickReason
      ensures Valid() && sessions == old(sessions)[client := s] && fresh(s)
      ensures s.sink == Some(ch) && s.epoch == epoch == 1 && s.queue == [] && s.identity == identity && s.subs == map[]
      ensures backlog == [] && s.queuePath.None? && s.subsPath.None?
      ensures FileAt(QueuePath(client)).None? && FileAt(SubsPath(client)).None?
      ensures client in old(sessions) ==> Dismissed(old(sessions)[client], old(sessions[client].View()), client)
      ensures OthersKept(disk.files, old(disk.files), client)
    {
      s := StartClean(client);
      epoch, backlog := Enter(client, s, identity, ch);
    }

    method AttachPersistent(client: string, identity: string, ch: ChanId)
      returns (s: SessionState, present: bool, epoch: nat, backlog: seq<Msg>)
      requires Valid() && ShortText(client) && ShortText(identity)
      modifies this`sessions, disk, if client in sessions then {sessions[client]} else {}
      ensures Valid() && sessions == old(sessions)[client := s]
      ensures s.sink == Some(ch) && s.epoch == epoch && s.queue == [] && s.identity == identity
      ensures present <==>
        client in old(sessions) || old(FileAt(QueuePath(client))).Some? || old(FileAt(SubsPath(client))).Some?
      ensures client in old(sessions) ==>
        (&& s == old(sessions[client]) && s.subs == old(sessions[client].subs)
         && epoch == old(sessions[client].epoch) + 1 && backlog == old(sessions[client].queue))
      ensures client !in old(sessions) ==>
        (&& fresh(s) && epoch == 1 && s.subs == map[]
         && s.queuePath == QueuePath(client) && s.subsPath == SubsPath(client)
         && backlog == Restored(s.Cfg(), old(FileAt(QueuePath(client)))))
      ensures OthersKept(disk.files, old(disk.files), client)
      ensures (old(Truthful(client)) ==> Truthful(client)) && (old(Placed(client)) ==> Placed(client))
      ensures if s.queuePath.Some? then FileAt(QueuePath(client)).None? else disk.files == old(disk.files)
    {
      s, present := StartPersistent(client);
      epoch, backlog := Enter(client, s, identity, ch);
    }

    /** Register the session and let the connection take it over. */
    method Enter(client: string, s: SessionState, identity: string, ch: ChanId) returns (epoch: nat, backlog: seq<Msg>)
      requires Valid() && Mine(s, client) && ShortText(identity)
      modifies this`sessions, disk, s
      ensures Valid() && sessions == old(sessions)[client := s]
      ensures s.sink == Some(ch) && s.epoch == epoch == old(s.epoch) + 1 && s.queue == [] && s.identity == identity
      ensures s.subs == old(s.subs) && backlog == old(s.queue)
      ensures if s.queuePath.None? then disk.files == old(disk.files) else FileAt(QueuePath(client)).None?
      ensures OthersKept(disk.files, old(disk.files), client)
      ensures var account := old(AccountFor(s));
        old(Tells(FileAt(SubsPath(client)), FileAt(QueuePath(client)), client, Some(account))) ==> Truthful(client)
      ensures old(Placed(client)) ==> Placed(client)
    {
      sessions := sessions[client := s];
      epoch, backlog := s.AttachConn(identity, ch);
      forall c | c in sessions
        ensures Mine(sessions[c], c)
      {
        assert c != client ==> old(Mine(sessions[c], c)) && sessions[c] != s;
      }
    }

    /** A connection's end. A superseded connection changes nothing at all; a current one leaves
        its session offline, and a clean session goes altogether, but never the entry of a
        newer session under the same client id. */
    method Detach(s: SessionState, epoch: nat, clean: bool, now: Time)
      requires Valid() && Mine(s, s.clientId) && epoch > 0
      modifies this`sessions, s`sink, s`kick, s`offlineSince, s`subs, disk
      ensures Valid() && Mine(s, s.clientId)
      ensures old(s.epoch) != epoch ==>
        sessions == old(sessions) && disk.files == old(disk.files) && s.View() == old(s.View()) && s.subs == old(s.subs)
      ensures old(s.epoch) == epoch ==> s.View() == DetachInner(old(s.View()), epoch, now)
      ensures old(s.epoch) == epoch ==> s.sink == None && s.offlineSince == Some(now)
      ensures old(s.epoch) == epoch && !clean ==>
        sessions == old(sessions) && disk.files == old(disk.files) && s.subs == old(s.subs)
      ensures old(s.epoch) == epoch && clean ==>
        (&& s.subs == map[] && disk.files == old(disk.files) - s.OwnPaths()
         && sessions == if s.clientId in old(sessions) && old(sessions)[s.clientId] == s
                        then old(sessions) - {s.clientId} else old(sessions))
    {
      var current := s.DetachConn(epoch, now);
      assert Mine(s, s.clientId);
      forall c | c in sessions
        ensures Mine(sessions[c], c)
      {
        assert old(Mine(sessions[c], c));
      }
      if current && clean {
        Destroy(s);
      }
    }

    method Erase(s: SessionState)
      requires s.disk == disk
      modifies s`subs, disk
      ensures s.subs == map[] && disk.files == old(disk.files) - s.OwnPaths()
    {
      s.AbortSubs();
      s.DiscardStateFiles();
    }

    /** The end of a clean session. */
    method Destroy(s: SessionState)
      requires Valid() && Mine(s, s.clientId)
      modifies this`sessions, s`subs, disk
      ensures Valid() && Mine(s, s.clientId)
      ensures s.subs == map[] && disk.files == old(disk.files) - s.OwnPaths()
      ensures sessions == if s.clientId in old(sessions) && old(sessions)[s.clientId] == s
                          then old(sessions) - {s.clientId} else old(sessions)
    {
      forall c | c in sessions && sessions[c] == s
        ensures c == s.clientId
      {
        assert Mine(sessions[c], c);
      }
      Erase(s);
      if s.clientId in sessions && sessions[s.clientId] == s {
        sessions := sessions - {s.clientId};
      }
      forall c | c in sessions
        ensures Mine(sessions[c], c)
      {
        assert old(Mine(sessions[c], c)) && sessions[c] != s;
      }
    }

    /** All files of the given clients' sessions. */
    function PathsOf(all: map<string, SessionState>, clients: set<string>): set<string>
      requires clients <= all.Keys
    {
      set c, p | c in clients && p in all[c].OwnPaths() :: p
    }

    lemma PathsOfNext(all: map<string, SessionState>, clients: set<string>, c: string)
      requires clients <= all.Keys && c in all
      ensures PathsOf(all, clients + {c}) == PathsOf(all, clients) + all[c].OwnPaths()
    {
    }

    /** Sessions of different clients share no file. */
    lemma OwnPathsDisjoint(s: SessionState, c: string, t: SessionState, d: string)
      requires Filed(s, c) && Filed(t, d) && c != d
      ensures s.OwnPaths() !! t.OwnPaths()
    {
      if dir.Some? {
        PathsDistinct(dir.value, c, d);
        PathsDistinct(dir.value, d, c);
      }
    }

    /** Discarding some sessions' files spares the files of all others. */
    lemma OtherPathsSafe(all: map<string, SessionState>, doomed: set<string>)
      requires doomed <= all.Keys && forall c :: c in all ==> Filed(all[c], c)
      ensures forall c :: c in all && c !in doomed ==> all[c].OwnPaths() !! PathsOf(all, doomed)
    {
      forall c, d | c in all && c !in doomed && d in doomed
        ensures all[c].OwnPaths() !! all[d].OwnPaths()
      {
        OwnPathsDisjoint(all[c], c, all[d], d);
      }
    }

    /** The clients a sweep discards. */
    function Stale(expiry: nat, now: Time): set<string>
      reads this, sessions.Values
    {
      set c | c in sessions && Expired(sessions[c].View(), now, expiry)
    }

    method FindStale(expiry: nat, now: Time) returns (stale: set<string>)
      ensures stale == Stale(expiry, now)
    {
      stale := {};
      var left := sessions.Keys;
      while left != {}
        invariant left <= sessions.Keys && stale == Stale(expiry, now) - left
        decreases left
      {
        var c :| c in left;
        var gone := sessions[c].IsExpired(expiry, now);
        stale, left := if gone then stale + {c} else stale, left - {c};
      }
    }

    /** A sweep discards exactly the sessions offline for longer than `expiry`, none of which
        has a connection, with their subscriptions and exactly their files. The others keep
        everything: their fields are outside the frame, and none of their files goes. */
    method Sweep(expiry: nat, now: Time)
      requires Valid()
      modifies this`sessions, disk, (set c | c in Stale(expiry, now) :: sessions[c])`subs
      ensures Valid() && sessions == old(sessions - Stale(expiry, now))
      ensures forall c :: c in old(Stale(expiry, now)) ==>
        old(sessions)[c].sink.None? && old(sessions)[c].subs == map[] && Mine(old(sessions)[c], c)
      ensures disk.files == old(disk.files - PathsOf(sessions, Stale(expiry, now)))
      ensures forall c :: c in sessions ==> sessions[c].OwnPaths() !! old(PathsOf(sessions, Stale(expiry, now)))
    {
      var stale := FindStale(expiry, now);
      forall c | c in stale
        ensures sessions[c].sink.None?
      {
        assert Mine(sessions[c], c);
      }
      Expel(stale);
    }

    method Expel(doomed: set<string>)
      requires Valid() && doomed <= sessions.Keys
      modifies this`sessions, disk, (set c | c in doomed :: sessions[c])`subs
      ensures Valid() && sessions == old(sessions) - doomed
      ensures forall c :: c in doomed ==> old(sessions)[c].subs == map[] && Mine(old(sessions)[c], c)
      ensures disk.files == old(disk.files) - PathsOf(old(sessions), doomed)
      ensures forall c :: c in sessions ==> sessions[c].OwnPaths() !! PathsOf(old(sessions), doomed)
    {
      var all := sessions;
      forall c | c in all
        ensures Filed(all[c], c)
      {
        assert Mine(all[c], c);
      }
      OtherPathsSafe(all, doomed);
      sessions := all - doomed;
      DiscardAll(all, doomed);
      forall c | c in all
        ensures Mine(all[c], c)
      {
        assert old(Mine(sessions[c], c));
      }
    }

    method DiscardAll(all: map<string, SessionState>, doomed: set<string>)
      requires doomed <= all.Keys && forall c :: c in all ==> Filed(all[c], c)
      modifies disk, (set c | c in doomed :: all[c])`subs
      ensures disk.files == old(disk.files) - PathsOf(all, doomed)
      ensures forall c :: c in doomed ==> all[c].subs == map[]
    {
      var left, done: set<string> := doomed, {};
      assert PathsOf(all, {}) == {};
      RemoveNone(disk.files);
      while left != {}
        invariant left + done == doomed && left !! done
        invariant disk.files == old(disk.files) - PathsOf(all, done)
        invariant forall c :: c in done ==> all[c].subs == map[]
        decreases left
      {
        var c :| c in left;
        PathsOfNext(all, done, c);
        RemoveTwice(old(disk.files), PathsOf(all, done), all[c].OwnPaths());
        Erase(all[c]);
        left, done := left - {c}, done + {c};
      }
      assert done == doomed;
    }
  }

  lemma RemoveNone(files: map<string, seq<byte>>)
    ensures files - {} == files
  {
  }

  lemma RemoveTwice(files: map<string, seq<byte>>, a: set<string>, b: set<string>)
    ensures (files - a) - b == files - (a + b)
  {
  }

  /** Section 3.1.2.4 of MQTT 3.1.1 wants a clean session's state gone with its connection.
      A persistent connection that takes over a clean session while that is still connected
      resumes it instead, and is told so, and gets a session that no restart survives. */
  method PersistentTakesOverClean(reg: SessionRegistry, client: string, identity: string)
    returns (present: bool, epoch: nat)
    requires reg.Valid() && ShortText(client) && ShortText(identity)
    modifies reg`sessions, reg.disk, if client in reg.sessions then {reg.sessions[client]} else {}
    ensures present && epoch == 2
    ensures reg.Valid() && client in reg.sessions && reg.sessions[client].sink == Some(1)
    ensures reg.sessions[client].queuePath.None? && reg.sessions[client].subsPath.None?
  {
    var a, _, _, _ := reg.Attach(client, identity, true, 0);
    var b, p, e, _ := reg.Attach(client, identity, false, 1);
    assert b == a;
    present, epoch := p, e;
  }
}
