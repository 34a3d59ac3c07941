/** Making subscriptions, live and at startup: validation and authorization come first, and a
    restart brings back what is still valid and granted. */
module Subscriptions {
  import opened Common
  import opened Codec
  import opened Topic
  import opened TopicTheorems
  import opened Auth
  import opened SessionProtocol
  import opened Session
  import opened Registry

  // ---------------------------------------------------------------- SUBSCRIBE

  datatype ReasonCode = Success(qos: QoS) | Failure

  function Granted(requested: QoS): QoS {
    if requested == AtMostOnce then AtMostOnce else AtLeastOnce
  }

  /** One filter of a SUBSCRIBE: refused unless it is valid and granted, and then recorded, in
      the file too, with at most QoS 1. */
  method Subscribe(s: SessionState, acl: Acl, user: string, scope: string, filter: string, requested: QoS)
    returns (code: ReasonCode)
    requires s.Valid() && ShortText(filter)
    modifies s`subs, s.disk
    ensures s.Valid()
    ensures code.Success? <==> ValidFilter(filter) && acl.MaySubscribe(user, filter)
    ensures code.Success? ==>
      && code.qos == (if requested == AtMostOnce then AtMostOnce else AtLeastOnce)
      && s.subs == old(s.subs)[filter := code.qos] && s.SubsOnDisk()
    ensures acl.defaultAllow && ValidFilter(filter) ==> code.Success?
    ensures code.Failure? ==> s.subs == old(s.subs) && s.disk.files == old(s.disk.files)
    ensures Without(s.disk.files, s.subsPath) == Without(old(s.disk.files), s.subsPath)
    ensures s.File(s.queuePath) == old(s.File(s.queuePath)) && InOrder(s.Books(), old(s.Books()))
  {
    SubscribableIff(filter, scope);
    var ke := TranslateFilter(filter, scope);
    if ke.Err? || !acl.MaySubscribe(user, filter) {
      return Failure;
    }
    s.InsertSub(filter, Granted(requested));
    code := Success(Granted(requested));
  }

  // ---------------------------------------------------------------- rehydration

  predicate Allowed(acl: Acl, user: string, filter: string) {
    acl.MaySubscribe(user, filter) && ValidFilter(filter)
  }

  /** The stored subscriptions that are still valid and granted. */
  function Permitted(acl: Acl, user: string, stored: map<string, QoS>): map<string, QoS> {
    map f | f in stored && Allowed(acl, user, f) :: stored[f]
  }

  /** Filtering entry by entry, later ones winning, is filtering the map they build. */
  lemma PermittedSnoc(acl: Acl, user: string, entries: seq<SubEntry>, e: SubEntry)
    ensures Permitted(acl, user, SubMap(entries + [e])) ==
      if Allowed(acl, user, e.0) then Permitted(acl, user, SubMap(entries))[e.0 := e.1]
      else Permitted(acl, user, SubMap(entries))
  {
    SubMapSnoc(entries, e);
  }

  predicate SubsFileName(path: string) {
    |path| >= |SUBS_EXT| && path[|path| - |SUBS_EXT|..] == SUBS_EXT
  }

  lemma QueueIsNotSubs(reg: SessionRegistry, client: string, path: string)
    requires SubsFileName(path)
    ensures reg.QueuePath(client) != Some(path)
  {
    if reg.dir.Some? {
      var q := reg.QueuePath(client).value;
      assert q[|q| - 1] == 'e' && path[|path| - 1] == SUBS_EXT[|SUBS_EXT| - 1] == 's';
    }
  }

  /** One stored entry: dropped, unless it is still granted and still valid. */
  method ReplayOne(s: SessionState, acl: Acl, scope: string, filter: string, qos: QoS)
    requires s.Valid() && ShortText(filter)
    modifies s`subs, s.disk
    ensures s.Valid()
    ensures s.subs == if Allowed(acl, s.identity, filter) then old(s.subs)[filter := qos] else old(s.subs)
    ensures Without(s.disk.files, s.subsPath) == Without(old(s.disk.files), s.subsPath)
  {
    SubscribableIff(filter, scope);
    if acl.MaySubscribe(s.identity, filter) {
      var ke := TranslateFilter(filter, scope);
      if ke.Ok? {
        s.InsertSub(filter, qos);
      }
    }
  }

  /** Replay a subscription file into a session. */
  method Replay(s: SessionState, acl: Acl, scope: string, entries: seq<SubEntry>)
    requires s.Valid() && s.subs == map[] && forall e :: e in entries ==> ShortText(e.0)
    modifies s`subs, s.disk
    ensures s.Valid() && s.subs == Permitted(acl, s.identity, SubMap(entries))
    ensures Without(s.disk.files, s.subsPath) == Without(old(s.disk.files), s.subsPath)
  {
    var i := 0;
    assert SubMap(entries[..0]) == map[];
    while i < |entries|
      invariant 0 <= i <= |entries| && s.Valid()
      invariant s.subs == Permitted(acl, s.identity, SubMap(entries[..i]))
      invariant Without(s.disk.files, s.subsPath) == Without(old(s.disk.files), s.subsPath)
    {
      assert entries[i] in entries && entries[..i + 1] == entries[..i] + [entries[i]];
      PermittedSnoc(acl, s.identity, entries[..i], entries[i]);
      ReplayOne(s, acl, scope, entries[i].0, entries[i].1);
      i := i + 1;
    }
    assert entries[..|entries|] == entries;
  }

  /** What a session remembers. */
  datatype Memory = Memory(durable: bool, identity: string, subs: map<string, QoS>, inner: Inner)

  function MemoryOf(s: SessionState): Memory
    reads s
  {
    Memory(s.subsPath.Some?, s.identity, s.subs, s.View())
  }

  function Memories(sessions: map<string, SessionState>): map<string, Memory>
    reads sessions.Values
  {
    map c | c in sessions :: MemoryOf(sessions[c])
  }

  lemma MemoriesNext(sessions: map<string, SessionState>, c: string, s: SessionState)
    ensures Memories(sessions[c := s]) == Memories(sessions)[c := MemoryOf(s)]
  {
  }

  /** What a session remembers that is made from a subscription file and a queue file: the
      stored identity, the stored filters that are still valid and granted, and the queue. */
  function Reborn(reg: SessionRegistry, acl: Acl, stored: LoadedSubs, queueFile: Option<seq<byte>>): Memory {
    Memory(true, stored.identity, Permitted(acl, stored.identity, SubMap(stored.entries)),
           Boot(Config(reg.maxQueue, reg.slowGrace, reg.dir.Some?), queueFile, 0).inner)
  }

  /** Replay a subscription file into a session and write the file anew. */
  method Refill(s: SessionState, acl: Acl, scope: string, entries: seq<SubEntry>)
    requires s.Valid() && s.subs == map[] && forall e :: e in entries ==> ShortText(e.0)
    modifies s`subs, s.disk
    ensures s.Valid() && s.subs == Permitted(acl, s.identity, SubMap(entries)) && s.SubsOnDisk()
    ensures Without(s.disk.files, s.subsPath) == Without(old(s.disk.files), s.subsPath)
  {
    Replay(s, acl, scope, entries);
    s.PersistSubs();
  }

  /** A session with a client, an identity and a queue, and no subscription yet. */
  method Blank(reg: SessionRegistry, path: string, client: string, identity: string) returns (s: SessionState)
    requires SubsFileName(path) && ShortText(client) && ShortText(identity)
    ensures fresh(s) && s.Valid() && s.clientId == client && s.subsPath == Some(path) && s.disk == reg.disk
    ensures s.identity == identity && s.subs == map[]
    ensures var cfg := Config(reg.maxQueue, reg.slowGrace, reg.dir.Some?);
      s.View() == Boot(cfg, reg.FileAt(reg.QueuePath(client)), 0).inner
    ensures reg.SubsPath(client) == Some(path) ==> reg.Mine(s, client)
  {
    QueueIsNotSubs(reg, client, path);
    s := new SessionState(client, reg.maxQueue, reg.slowGrace, reg.QueuePath(client), Some(path), reg.disk);
    s.identity := identity;
  }

  /** A session made from what a subscription file says. */
  method Revive(reg: SessionRegistry, acl: Acl, scope: string, path: string, stored: LoadedSubs)
    returns (s: SessionState)
    requires SubsFileName(path)
    requires ShortText(stored.client) && ShortText(stored.identity)
    requires forall e :: e in stored.entries ==> ShortText(e.0)
    modifies reg.disk
    ensures fresh(s) && s.clientId == stored.client && s.subsPath == Some(path) && s.disk == reg.disk
    ensures MemoryOf(s) == Reborn(reg, acl, stored, old(reg.FileAt(reg.QueuePath(stored.client))))
    ensures s.SubsOnDisk() && Without(reg.disk.files, Some(path)) == Without(old(reg.disk.files), Some(path))
    ensures reg.SubsPath(stored.client) == Some(path) ==> reg.Mine(s, stored.client)
  {
    s := Blank(reg, path, stored.client, stored.identity);
    Refill(s, acl, scope, stored.entries);
  }

  method Enrol(reg: SessionRegistry, s: SessionState)
    modifies reg`sessions
    ensures reg.sessions == old(reg.sessions)[s.clientId := s]
    ensures Memories(reg.sessions) == old(Memories(reg.sessions))[s.clientId := MemoryOf(s)]
    ensures old(reg.Valid()) && reg.Mine(s, s.clientId) ==> reg.Valid()
  {
    MemoriesNext(reg.sessions, s.clientId, s);
    reg.sessions := reg.sessions[s.clientId := s];
  }

  /** The session a subscription file describes joins the registry. */
  method Rejoin(reg: SessionRegistry, acl: Acl, scope: string, path: string, stored: LoadedSubs)
    returns (s: SessionState)
    requires SubsFileName(path)
    requires ShortText(stored.client) && ShortText(stored.identity)
    requires forall e :: e in stored.entries ==> ShortText(e.0)
    modifies reg`sessions, reg.disk
    ensures fresh(s) && s.clientId == stored.client && s.subsPath == Some(path) && s.disk == reg.disk
    ensures MemoryOf(s) == Reborn(reg, acl, stored, old(reg.FileAt(reg.QueuePath(stored.client))))
    ensures s.SubsOnDisk() && Without(reg.disk.files, Some(path)) == Without(old(reg.disk.files), Some(path))
    ensures reg.sessions == old(reg.sessions)[stored.client := s]
    ensures Memories(reg.sessions) == old(Memories(reg.sessions))[stored.client := MemoryOf(s)]
    ensures old(reg.Valid()) && reg.SubsPath(stored.client) == Some(path) ==> reg.Valid()
  {
    s := Revive(reg, acl, scope, path, stored);
    Enrol(reg, s);
  }

  /** Recreate a session from its subscription file at startup. It comes back with the file's
      client and identity and with exactly the stored filters that are still valid and granted;
      the file is rewritten to say so; the queue is what the queue file holds. Nothing else
      changes. */
  method RehydrateOne(reg: SessionRegistry, acl: Acl, scope: string, path: string)
    returns (r: Result<SessionState, FileError>)
    requires SubsFileName(path)
    modifies reg`sessions, reg.disk
    ensures r.Err? ==>
      (&& reg.sessions == old(reg.sessions) && reg.disk.files == old(reg.disk.files)
       && old(DecodeSubs(reg.FileAt(Some(path)))) == Err(r.error))
    ensures Without(reg.disk.files, Some(path)) == Without(old(reg.disk.files), Some(path))
    ensures r.Ok? ==>
      (&& fresh(r.value) && old(DecodeSubs(reg.FileAt(Some(path)))).Ok?
       && var stored := old(DecodeSubs(reg.FileAt(Some(path)))).value;
          && r.value.clientId == stored.client && r.value.subsPath == Some(path) && r.value.disk == reg.disk
          && MemoryOf(r.value) == Reborn(reg, acl, stored, old(reg.FileAt(reg.QueuePath(stored.client))))
          && (forall f :: f in r.value.subs <==>
                f in SubMap(stored.entries) && ValidFilter(f) && acl.MaySubscribe(stored.identity, f))
          && (forall f :: f in r.value.subs ==> r.value.subs[f] == SubMap(stored.entries)[f])
          && r.value.SubsOnDisk() && reg.sessions == old(reg.sessions)[stored.client := r.value]
          && Memories(reg.sessions) == old(Memories(reg.sessions))[stored.client := MemoryOf(r.value)]
          && (old(reg.Valid()) && reg.SubsPath(stored.client) == Some(path) ==> reg.Valid()))
  {
    var loaded := LoadSubs(reg.FileAt(Some(path)));
    if loaded.Err? {
      return Err(loaded.error);
    }
    var s := Rejoin(reg, acl, scope, path, loaded.value);
    r := Ok(s);
  }

  /** Filtering again under the same rules changes nothing; under rules that grant less it is
      filtering by those alone. */
  lemma PermittedInStages(acl: Acl, tighter: Acl, user: string, stored: map<string, QoS>)
    requires tighter.defaultAllow ==> acl.defaultAllow
    requires forall r :: r in tighter.rules ==> r in acl.rules
    ensures Permitted(tighter, user, Permitted(acl, user, stored)) == Permitted(tighter, user, stored)
  {
    forall f | f in stored
      ensures Allowed(tighter, user, f) ==> Allowed(acl, user, f)
    {
      RulesOnlyGrant(tighter, acl, user, f, "");
    }
  }
}
