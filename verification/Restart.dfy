/** A node's restart: every persistent session comes back from the files it left. */
module Restart {
  import opened Common
  import opened Utf8
  import opened Codec
  import opened TopicTheorems
  import opened Auth
  import opened SessionProtocol
  import opened SessionDurability
  import opened Session
  import opened Registry
  import opened Subscriptions

  type Files = map<string, seq<byte>>

  // ---------------------------------------------------------------- the directory

  /** A directory entry with the extension `subs`; a name that is nothing but `.subs` has no
      extension. */
  predicate Listed(dir: string, path: string) {
    SubsFileName(path) && dir + "/" <= path && |path| > |dir| + 1 + |SUBS_EXT| && '/' !in path[|dir| + 1..]
  }

  function ListedPaths(files: Files, dir: string): set<string> {
    set p | p in files && Listed(dir, p)
  }

  lemma {:induction false} HexHasNoSlash(b: seq<byte>)
    ensures '/' !in HexBytes(b)
  {
    if b != [] {
      HexHasNoSlash(b[1..]);
      assert forall i :: 0 <= i < 16 ==> HEX[i] != '/';
    }
  }

  lemma EncodedLength(client: string)
    ensures |HexName(client)| == 0 <==> client == ""
  {
    if client != "" && HexName(client) == HexName("") {
      HexNameInjective(client, "");
    }
    assert HexName("") == "";
  }

  /** Every client but the empty one has a subscription file that a listing shows. */
  lemma OwnFileListed(dir: string, client: string)
    ensures var path := StatePath(Some(dir), client, SUBS_EXT).value;
      Listed(dir, path) <==> client != ""
  {
    var name := HexName(client);
    var path := dir + "/" + name + SUBS_EXT;
    HexHasNoSlash(Encode(client));
    assert path[|dir| + 1..] == name + SUBS_EXT;
    assert path[|path| - |SUBS_EXT|..] == SUBS_EXT;
    assert dir + "/" <= path;
    EncodedLength(client);
  }

  // ---------------------------------------------------------------- files in their places

  /** A readable subscription file lies where its client's session puts it. */
  predicate PlacedAt(reg: SessionRegistry, files: Files, p: string)
    requires p in files
  {
    var r := DecodeSubs(Some(files[p]));
    SubsFileName(p) && r.Ok? ==> reg.SubsPath(r.value.client) == Some(p)
  }

  predicate InPlace(reg: SessionRegistry, files: Files) {
    forall p {:trigger PlacedAt(reg, files, p)} :: p in files ==> PlacedAt(reg, files, p)
  }

  /** Whoever writes only its own client's two files, and no other client's name into them,
      leaves every file in its place. */
  lemma OwnWritesStayInPlace(reg: SessionRegistry, now: Files, files: Files, client: string)
    requires InPlace(reg, files) && reg.OthersKept(now, files, client)
    requires NamesClient(FileIn(now, reg.SubsPath(client)), client)
    ensures InPlace(reg, now)
  {
    forall p | p in now
      ensures PlacedAt(reg, now, p)
    {
      if SubsFileName(p) && reg.SubsPath(client) != Some(p) {
        QueueIsNotSubs(reg, client, p);
        var rest, rest0 := Without(Without(now, reg.QueuePath(client)), reg.SubsPath(client)),
                           Without(Without(files, reg.QueuePath(client)), reg.SubsPath(client));
        assert p in rest && rest[p] == now[p] && p in rest0 && rest0[p] == files[p];
        assert PlacedAt(reg, files, p);
      }
    }
  }

  /** In such a directory a client's file names nobody else. */
  lemma PlacedFileIsOwn(reg: SessionRegistry, files: Files, client: string)
    requires InPlace(reg, files)
    ensures NamesClient(FileIn(files, reg.SubsPath(client)), client)
  {
    var path, r := reg.SubsPath(client), DecodeSubs(FileIn(files, reg.SubsPath(client)));
    if r.Ok? {
      assert PlacedAt(reg, files, path.value);
      SubsPathIsSubsFile(reg, client);
      if r.value.client != client {
        PathsDistinct(reg.dir.value, client, r.value.client);
      }
    }
  }

  lemma SubsPathIsSubsFile(reg: SessionRegistry, client: string)
    requires reg.dir.Some?
    ensures SubsFileName(reg.SubsPath(client).value)
  {
    var path := reg.SubsPath(client).value;
    assert path[|path| - |SUBS_EXT|..] == SUBS_EXT;
  }

  // ---------------------------------------------------------------- reading the directory

  /** The readable subscription file at `p` is client `c`'s. */
  predicate Holds(files: Files, p: string, c: string) {
    p in files && DecodeSubs(Some(files[p])).Ok? && DecodeSubs(Some(files[p])).value.client == c
  }

  /** What client `c`'s session remembers if it is made from the file at `p`. */
  function MadeFrom(reg: SessionRegistry, acl: Acl, files: Files, p: string, c: string): Memory
    requires Holds(files, p, c)
  {
    Reborn(reg, acl, DecodeSubs(Some(files[p])).value, FileIn(files, reg.QueuePath(c)))
  }

  /** Client `c` is back if and only if one of the files in `done` is readable and its own, and
      then as such a file says. */
  ghost predicate BackFrom(reg: SessionRegistry, acl: Acl, files: Files, done: set<string>,
                           back: map<string, Memory>, c: string)
  {
    && ((exists p :: p in done && Holds(files, p, c)) ==> c in back)
    && (c in back ==> exists p :: p in done && Holds(files, p, c) && back[c] == MadeFrom(reg, acl, files, p, c))
  }

  ghost predicate Roster(reg: SessionRegistry, acl: Acl, files: Files, done: set<string>, back: map<string, Memory>) {
    forall c {:trigger BackFrom(reg, acl, files, done, back, c)} :: BackFrom(reg, acl, files, done, back, c)
  }

  lemma RosterNext(reg: SessionRegistry, acl: Acl, files: Files, done: set<string>,
                   back: map<string, Memory>, path: string)
    requires Roster(reg, acl, files, done, back) && path in files
    ensures var r := DecodeSubs(Some(files[path]));
      if r.Ok? then
        Roster(reg, acl, files, done + {path}, back[r.value.client := MadeFrom(reg, acl, files, path, r.value.client)])
      else Roster(reg, acl, files, done + {path}, back)
  {
    var r := DecodeSubs(Some(files[path]));
    var back' := if r.Ok? then back[r.value.client := MadeFrom(reg, acl, files, path, r.value.client)] else back;
    forall c
      ensures BackFrom(reg, acl, files, done + {path}, back', c)
    {
      assert BackFrom(reg, acl, files, done, back, c);
      if r.Ok? && c == r.value.client {
        assert path in done + {path} && Holds(files, path, c);
      } else if c in back {
        var p :| p in done && Holds(files, p, c) && back[c] == MadeFrom(reg, acl, files, p, c);
        assert p in done + {path} && back'[c] == MadeFrom(reg, acl, files, p, c);
      }
    }
  }

  /** The file that held `image`, after its replay. */
  ghost predicate Rewritten(acl: Acl, image: seq<byte>, now: Option<seq<byte>>) {
    var r := DecodeSubs(Some(image));
    if r.Ok? then
      SubsFileHolds(now, r.value.client, r.value.identity, Permitted(acl, r.value.identity, SubMap(r.value.entries)))
    else now == Some(image)
  }

  /** The files in `done` are rewritten, all others are as they were. */
  ghost predicate Replayed(acl: Acl, now: Files, files: Files, done: set<string>) {
    && (forall p :: p in done ==> SubsFileName(p) && p in files && Rewritten(acl, files[p], FileIn(now, Some(p))))
    && (forall p :: p !in done ==> FileIn(now, Some(p)) == FileIn(files, Some(p)))
  }

  lemma OtherFilesKept(files: Files, files0: Files, path: string, p: string)
    requires Without(files, Some(path)) == Without(files0, Some(path)) && p != path
    ensures FileIn(files, Some(p)) == FileIn(files0, Some(p))
  {
    assert p in files <==> p in Without(files, Some(path));
    assert p in files0 <==> p in Without(files0, Some(path));
    if p in files && p in files0 {
      assert files[p] == Without(files, Some(path))[p] == Without(files0, Some(path))[p] == files0[p];
    }
  }

  lemma ReplayedNext(acl: Acl, now: Files, now0: Files, files: Files, done: set<string>, path: string)
    requires Replayed(acl, now0, files, done) && Without(now, Some(path)) == Without(now0, Some(path))
    requires path in files && SubsFileName(path) && Rewritten(acl, files[path], FileIn(now, Some(path)))
    ensures Replayed(acl, now, files, done + {path})
  {
    forall p | p != path
      ensures FileIn(now, Some(p)) == FileIn(now0, Some(p))
    {
      OtherFilesKept(now, now0, path, p);
    }
  }

  lemma QueueFileUntouched(reg: SessionRegistry, acl: Acl, client: string, now: Files, files: Files, done: set<string>)
    requires Replayed(acl, now, files, done)
    ensures FileIn(now, reg.QueuePath(client)) == FileIn(files, reg.QueuePath(client))
  {
    var q := reg.QueuePath(client);
    if q.Some? && q.value in done {
      QueueIsNotSubs(reg, client, q.value);
    }
  }

  /** A file not replayed yet still says what it said at the start. */
  lemma StillToRead(reg: SessionRegistry, acl: Acl, now: Files, files: Files, done: set<string>, path: string)
    requires Replayed(acl, now, files, done) && path in files && path !in done
    ensures path in now && now[path] == files[path]
    ensures var r := DecodeSubs(Some(files[path]));
      r.Ok? ==> MadeFrom(reg, acl, now, path, r.value.client) == MadeFrom(reg, acl, files, path, r.value.client)
  {
    assert FileIn(now, Some(path)) == FileIn(files, Some(path));
    var r := DecodeSubs(Some(files[path]));
    if r.Ok? {
      QueueFileUntouched(reg, acl, r.value.client, now, files, done);
    }
  }

  /** One file: its session joins the others. */
  method Readmit(reg: SessionRegistry, acl: Acl, scope: string, path: string)
    requires SubsFileName(path) && path in reg.disk.files
    modifies reg`sessions, reg.disk
    ensures old(reg.Valid() && PlacedAt(reg, reg.disk.files, path)) ==> reg.Valid()
    ensures Without(reg.disk.files, Some(path)) == Without(old(reg.disk.files), Some(path))
    ensures Rewritten(acl, old(reg.disk.files[path]), FileIn(reg.disk.files, Some(path)))
    ensures var r := old(DecodeSubs(Some(reg.disk.files[path])));
      Memories(reg.sessions) ==
      if r.Ok? then
        old(Memories(reg.sessions))[r.value.client := MadeFrom(reg, acl, old(reg.disk.files), path, r.value.client)]
      else old(Memories(reg.sessions))
    ensures forall k :: k in reg.sessions ==>
      fresh(reg.sessions[k]) || (k in old(reg.sessions) && reg.sessions[k] == old(reg.sessions)[k])
  {
    var r := RehydrateOne(reg, acl, scope, path);
  }

  /** The sessions back so far, and one more. */
  method RehydrateStep(reg: SessionRegistry, acl: Acl, scope: string, path: string,
                       ghost files: Files, ghost done: set<string>)
    requires Replayed(acl, reg.disk.files, files, done) && Roster(reg, acl, files, done, Memories(reg.sessions))
    requires path in files && SubsFileName(path) && path !in done
    modifies reg`sessions, reg.disk
    ensures old(reg.Valid()) && PlacedAt(reg, files, path) ==> reg.Valid()
    ensures Replayed(acl, reg.disk.files, files, done + {path})
    ensures Roster(reg, acl, files, done + {path}, Memories(reg.sessions))
    ensures forall k :: k in reg.sessions ==>
      fresh(reg.sessions[k]) || (k in old(reg.sessions) && reg.sessions[k] == old(reg.sessions)[k])
  {
    ghost var before := reg.disk.files;
    RosterNext(reg, acl, files, done, Memories(reg.sessions), path);
    StillToRead(reg, acl, before, files, done, path);
    Readmit(reg, acl, scope, path);
    ReplayedNext(acl, reg.disk.files, before, files, done, path);
  }

  /** All the given files, in whatever order. */
  method RehydrateAll(reg: SessionRegistry, acl: Acl, scope: string, paths: set<string>)
    requires reg.sessions == map[] && forall p :: p in paths ==> p in reg.disk.files && SubsFileName(p)
    modifies reg`sessions, reg.disk
    ensures Roster(reg, acl, old(reg.disk.files), paths, Memories(reg.sessions))
    ensures Replayed(acl, reg.disk.files, old(reg.disk.files), paths)
    ensures InPlace(reg, old(reg.disk.files)) ==> reg.Valid()
    ensures forall k :: k in reg.sessions ==> fresh(reg.sessions[k])
  {
    ghost var files, placed := reg.disk.files, InPlace(reg, reg.disk.files);
    var left := paths;
    NothingRead(reg, acl, files, paths - left);
    assert Memories(reg.sessions) == map[];
    while left != {}
      invariant left <= paths
      invariant Replayed(acl, reg.disk.files, files, paths - left)
      invariant Roster(reg, acl, files, paths - left, Memories(reg.sessions))
      invariant placed ==> reg.Valid()
      invariant forall k :: k in reg.sessions ==> fresh(reg.sessions[k])
      decreases left
    {
      var path :| path in left;
      assert paths - (left - {path}) == (paths - left) + {path};
      RehydrateStep(reg, acl, scope, path, files, paths - left);
      left := left - {path};
    }
    assert paths - {} == paths;
  }

  lemma NothingRead(reg: SessionRegistry, acl: Acl, files: Files, none: set<string>)
    requires none == {}
    ensures Roster(reg, acl, files, none, map[]) && Replayed(acl, files, files, none)
  {
  }

  /** Startup, whatever the directory holds: from an empty registry, exactly the clients named in
      a readable listed file come back, each with the identity of such a file, its filters still
      valid and granted, and the queue in its queue file. The listed files are rewritten to say
      so and no other file changes. If every file lies in its place, so do the sessions. */
  method Rehydrate(reg: SessionRegistry, acl: Acl, scope: string)
    requires reg.sessions == map[]
    modifies reg`sessions, reg.disk
    ensures reg.dir.None? ==> reg.sessions == map[] && reg.disk.files == old(reg.disk.files)
    ensures reg.dir.Some? ==>
      (var listed := ListedPaths(old(reg.disk.files), reg.dir.value);
       && Roster(reg, acl, old(reg.disk.files), listed, Memories(reg.sessions))
       && Replayed(acl, reg.disk.files, old(reg.disk.files), listed))
    ensures InPlace(reg, old(reg.disk.files)) ==> reg.Valid()
    ensures forall k :: k in reg.sessions ==> fresh(reg.sessions[k])
  {
    if reg.dir.Some? {
      RehydrateAll(reg, acl, scope, ListedPaths(reg.disk.files, reg.dir.value));
    }
  }

  // ---------------------------------------------------------------- who is back

  function StoredSubs(reg: SessionRegistry, files: Files, c: string): Result<LoadedSubs, FileError> {
    DecodeSubs(FileIn(files, reg.SubsPath(c)))
  }

  /** What client `c`'s session remembers after a restart. */
  function Revived(reg: SessionRegistry, acl: Acl, files: Files, c: string): Memory
    requires StoredSubs(reg, files, c).Ok?
  {
    Reborn(reg, acl, StoredSubs(reg, files, c).value, FileIn(files, reg.QueuePath(c)))
  }

  /** With every file in its place, one client's comeback depends on its own file alone. */
  lemma BackFromOwnFile(reg: SessionRegistry, acl: Acl, files: Files, back: map<string, Memory>, c: string)
    requires reg.dir.Some? && InPlace(reg, files)
    requires Roster(reg, acl, files, ListedPaths(files, reg.dir.value), back)
    ensures c in back <==> c != "" && StoredSubs(reg, files, c).Ok?
    ensures c in back ==> back[c] == Revived(reg, acl, files, c)
  {
    var done, path := ListedPaths(files, reg.dir.value), reg.SubsPath(c).value;
    assert BackFrom(reg, acl, files, done, back, c);
    OwnFileListed(reg.dir.value, c);
    PlacedFileIsOwn(reg, files, c);
    forall p | p in done && Holds(files, p, c)
      ensures p == path
    {
      assert PlacedAt(reg, files, p);
    }
    if c != "" && StoredSubs(reg, files, c).Ok? {
      assert path in done && Holds(files, path, c);
    }
  }

  // ---------------------------------------------------------------- one restart

  lemma ReplayStaysInPlace(reg: SessionRegistry, acl: Acl, now: Files, files: Files, done: set<string>)
    requires InPlace(reg, files) && Replayed(acl, now, files, done)
    ensures InPlace(reg, now)
  {
    forall p | p in now
      ensures PlacedAt(reg, now, p)
    {
      assert FileIn(now, Some(p)) == Some(now[p]);
      if p in done {
        assert Rewritten(acl, files[p], FileIn(now, Some(p)));
        assert PlacedAt(reg, files, p);
      } else {
        assert FileIn(files, Some(p)) == Some(now[p]) && PlacedAt(reg, files, p);
      }
    }
  }

  /** What a client's file says after a restart: nothing, if nothing is granted any more, and
      otherwise the identity it said and the part still granted. */
  lemma StoredAfterReplay(reg: SessionRegistry, acl: Acl, now: Files, files: Files, c: string)
    requires reg.dir.Some? && InPlace(reg, files) && Replayed(acl, now, files, ListedPaths(files, reg.dir.value))
    requires c != "" && StoredSubs(reg, files, c).Ok?
    ensures var was, later := StoredSubs(reg, files, c).value, StoredSubs(reg, now, c);
      var granted := Permitted(acl, was.identity, SubMap(was.entries));
      && SubsFileHolds(FileIn(now, reg.SubsPath(c)), c, was.identity, granted)
      && (later.Ok? <==> granted != map[])
      && (later.Ok? ==> later.value.identity == was.identity && SubMap(later.value.entries) == granted)
  {
    var path := reg.SubsPath(c).value;
    OwnFileListed(reg.dir.value, c);
    PlacedFileIsOwn(reg, files, c);
    assert path in ListedPaths(files, reg.dir.value);
    assert Rewritten(acl, files[path], FileIn(now, Some(path)));
  }

  /** A file that was not there, or that cannot be read, stays as it was. */
  lemma UnreadableStays(reg: SessionRegistry, acl: Acl, now: Files, files: Files, c: string)
    requires reg.dir.Some? && Replayed(acl, now, files, ListedPaths(files, reg.dir.value))
    requires StoredSubs(reg, files, c).Err?
    ensures FileIn(now, reg.SubsPath(c)) == FileIn(files, reg.SubsPath(c))
  {
    var path := reg.SubsPath(c).value;
    if path in ListedPaths(files, reg.dir.value) {
      assert Rewritten(acl, files[path], FileIn(now, Some(path)));
    }
  }

  lemma SamePaths(reg: SessionRegistry, next: SessionRegistry, files: Files)
    requires next.dir == reg.dir && InPlace(reg, files)
    ensures InPlace(next, files)
  {
    forall p | p in files
      ensures PlacedAt(next, files, p)
    {
      assert PlacedAt(reg, files, p);
    }
  }

  /** What a restart makes of a session: the granted part of its subscriptions, and what its
      queue file holds. */
  function Survivor(acl: Acl, s: SessionState): Memory
    reads s, s.disk
  {
    Memory(true, s.identity, Permitted(acl, s.identity, s.subs), Boot(s.Cfg(), s.File(s.queuePath), 0).inner)
  }

  /** A registered session with files and subscriptions. */
  predicate Subscribed(reg: SessionRegistry, c: string)
    reads reg, reg.sessions.Values
  {
    c in reg.sessions && reg.sessions[c].subsPath.Some? && reg.sessions[c].subs != map[]
  }

  /** A truthful file is readable exactly for a session with subscriptions, and then says what
      a restart makes of it. */
  lemma TruthIsRevived(reg: SessionRegistry, acl: Acl, c: string)
    requires reg.Valid() && reg.Truthful(c)
    ensures StoredSubs(reg, reg.disk.files, c).Ok? <==> Subscribed(reg, c)
    ensures Subscribed(reg, c) ==>
      reg.dir.Some? && Revived(reg, acl, reg.disk.files, c) == Survivor(acl, reg.sessions[c])
  {
    if Subscribed(reg, c) {
      var s := reg.sessions[c];
      assert reg.Mine(s, c);
      assert s.File(s.queuePath) == FileIn(reg.disk.files, reg.QueuePath(c));
    }
  }

  /** A queue just read from its file. */
  lemma RestoredTells(file: Option<seq<byte>>, maxQueue: nat, a: Account)
    requires a.queue == Restored(Config(maxQueue, true, true), file)
    ensures QueueTells(file, maxQueue, Some(a))
  {
    RestoredEncodable(Config(maxQueue, true, true), file);
  }

  /** Startup over a directory in which every file lies in its place. */
  method StartUp(reg: SessionRegistry, acl: Acl, scope: string, ghost c: string)
    requires reg.sessions == map[] && InPlace(reg, reg.disk.files)
    modifies reg`sessions, reg.disk
    ensures reg.Valid() && InPlace(reg, reg.disk.files) && "" !in reg.sessions
    ensures c in Memories(reg.sessions) <==> c != "" && StoredSubs(reg, old(reg.disk.files), c).Ok?
    ensures c in Memories(reg.sessions) ==> Memories(reg.sessions)[c] == Revived(reg, acl, old(reg.disk.files), c)
    ensures c in reg.sessions ==> reg.sessions[c].subsPath.Some?
    ensures reg.QueueTold(c)
    ensures c in Memories(reg.sessions) || old(reg.FileAt(reg.SubsPath(c))).None? ==> reg.Truthful(c)
    ensures forall k :: k in reg.sessions ==> fresh(reg.sessions[k])
  {
    ghost var files := reg.disk.files;
    Rehydrate(reg, acl, scope);
    if reg.dir.Some? {
      ghost var back := Memories(reg.sessions);
      BackFromOwnFile(reg, acl, files, back, c);
      BackFromOwnFile(reg, acl, files, back, "");
      ReplayStaysInPlace(reg, acl, reg.disk.files, files, ListedPaths(files, reg.dir.value));
      if c in back {
        StoredAfterReplay(reg, acl, reg.disk.files, files, c);
        assert reg.sessions[c].subsPath.Some? == back[c].durable;
        QueueFileUntouched(reg, acl, c, reg.disk.files, files, ListedPaths(files, reg.dir.value));
        RestoredTells(reg.FileAt(reg.QueuePath(c)), reg.maxQueue, AccountFor(reg.sessions[c]));
      } else if FileIn(files, reg.SubsPath(c)).None? {
        UnreadableStays(reg, acl, reg.disk.files, files, c);
      }
    }
  }

  lemma SurvivorQueue(reg: SessionRegistry, acl: Acl, c: string)
    requires reg.Valid()
    ensures reg.QueueTold(c) && Subscribed(reg, c) ==>
      (Survivor(acl, reg.sessions[c]).inner.queue == reg.sessions[c].queue <==> AllEncodable(reg.sessions[c].queue))
  {
    if Subscribed(reg, c) {
      assert reg.Mine(reg.sessions[c], c);
    }
  }

  /** A crash and a restart. A client whose file was truthful is back if and only if its session
      had files and subscriptions, under the same identity, with all subscriptions that are
      still granted; its queue is the one it had in memory if and only if that fits the file
      format; and its file is truthful again. */
  method RestartNode(reg: SessionRegistry, acl: Acl, scope: string, ghost c: string) returns (next: SessionRegistry)
    requires reg.Valid() && InPlace(reg, reg.disk.files) && "" !in reg.sessions
    modifies reg.disk
    ensures fresh(next) && SameNode(next, reg) && forall k :: k in next.sessions ==> fresh(next.sessions[k])
    ensures next.Valid() && InPlace(next, next.disk.files) && "" !in next.sessions
    ensures c in next.sessions ==> next.sessions[c].subsPath.Some?
    ensures old(reg.Truthful(c)) ==>
      (&& next.Truthful(c)
       && (c in Memories(next.sessions) <==> old(Subscribed(reg, c)))
       && (old(Subscribed(reg, c)) ==> Memories(next.sessions)[c] == old(Survivor(acl, reg.sessions[c]))))
    ensures old(reg.Truthful(c) && Subscribed(reg, c)) ==>
      (var was, back := old(reg.sessions[c].identity), Memories(next.sessions)[c];
       && back.identity == was
       && (forall f :: f in back.subs <==>
             f in old(reg.sessions[c].subs) && ValidFilter(f) && acl.MaySubscribe(was, f))
       && (forall f :: f in back.subs ==> back.subs[f] == old(reg.sessions[c].subs)[f]))
    ensures next.QueueTold(c)
    ensures old(reg.Truthful(c) && reg.QueueTold(c) && Subscribed(reg, c)) ==>
      (Memories(next.sessions)[c].inner.queue == old(reg.sessions[c].queue) <==>
       AllEncodable(old(reg.sessions[c].queue)))
  {
    ghost var files := reg.disk.files;
    next := new SessionRegistry(reg.maxQueue, reg.slowGrace, reg.dir, reg.disk);
    SamePaths(reg, next, files);
    if reg.Truthful(c) {
      TruthIsRevived(reg, acl, c);
      SurvivorQueue(reg, acl, c);
    }
    StartUp(next, acl, scope, c);
  }

  predicate SameNode(a: SessionRegistry, b: SessionRegistry) {
    a.maxQueue == b.maxQueue && a.slowGrace == b.slowGrace && a.dir == b.dir && a.disk == b.disk
  }

  // ---------------------------------------------------------------- two restarts

  /** What the second of two restarts in a row makes of a client: it is back if and only if it was
      back with a subscription still granted, and then with what the rules of the second grant
      of that. */
  lemma SecondRestart(reg: SessionRegistry, next: SessionRegistry, acl: Acl, acl2: Acl, now: Files, files: Files,
                      first: map<string, Memory>, second: map<string, Memory>, c: string)
    requires SameNode(next, reg) && reg.dir.Some? && InPlace(reg, files)
    requires Roster(reg, acl, files, ListedPaths(files, reg.dir.value), first)
    requires Replayed(acl, now, files, ListedPaths(files, reg.dir.value))
    requires Roster(next, acl2, now, ListedPaths(now, next.dir.value), second)
    ensures c in second <==> c in first && first[c].subs != map[]
    ensures c in second ==> second[c] == first[c].(subs := Permitted(acl2, first[c].identity, first[c].subs))
    ensures c in first ==> StoredSubs(reg, files, c).Ok? && first[c] == Revived(reg, acl, files, c)
  {
    BackFromOwnFile(reg, acl, files, first, c);
    ReplayStaysInPlace(reg, acl, now, files, ListedPaths(files, reg.dir.value));
    SamePaths(reg, next, now);
    BackFromOwnFile(next, acl2, now, second, c);
    QueueFileUntouched(reg, acl, c, now, files, ListedPaths(files, reg.dir.value));
    if c != "" {
      if StoredSubs(reg, files, c).Ok? {
        StoredAfterReplay(reg, acl, now, files, c);
      } else {
        UnreadableStays(reg, acl, now, files, c);
      }
    }
  }

  /** The second rules grant nothing that the first do not. */
  predicate Tighter(acl2: Acl, acl: Acl) {
    (acl2.defaultAllow ==> acl.defaultAllow) && forall r :: r in acl2.rules ==> r in acl.rules
  }

  /** Restart, and restart again. A session that came back is back again if and only if one of
      its subscriptions is still granted: with none left the first restart deletes the file. If
      it is back, it is the same under the same rules; under tighter rules it is what those
      alone would have made of the first directory. */
  method RestartTwice(reg: SessionRegistry, acl: Acl, acl2: Acl, scope: string) returns (next: SessionRegistry)
    requires reg.sessions == map[] && InPlace(reg, reg.disk.files)
    modifies reg`sessions, reg.disk
    ensures fresh(next) && SameNode(next, reg)
    ensures forall c :: c in Memories(next.sessions) <==>
      c in Memories(reg.sessions) && Memories(reg.sessions)[c].subs != map[]
    ensures acl2 == acl ==> forall c :: c in Memories(next.sessions) ==>
      Memories(next.sessions)[c] == Memories(reg.sessions)[c]
    ensures Tighter(acl2, acl) ==> forall c :: c in Memories(next.sessions) ==>
      StoredSubs(reg, old(reg.disk.files), c).Ok? &&
      Memories(next.sessions)[c] == Revived(reg, acl2, old(reg.disk.files), c)
  {
    ghost var files := reg.disk.files;
    Rehydrate(reg, acl, scope);
    ghost var now := reg.disk.files;
    next := Again(reg, acl2, scope);
    if reg.dir.Some? {
      Twice(reg, next, acl, acl2, now, files, Memories(reg.sessions), Memories(next.sessions));
    }
  }

  /** Another node over the same directory, which leaves the first one's sessions alone. */
  method Again(reg: SessionRegistry, acl: Acl, scope: string) returns (next: SessionRegistry)
    modifies reg.disk
    ensures fresh(next) && SameNode(next, reg)
    ensures Memories(reg.sessions) == old(Memories(reg.sessions))
    ensures reg.dir.None? ==> next.sessions == map[]
    ensures reg.dir.Some? ==>
      Roster(next, acl, old(reg.disk.files), ListedPaths(old(reg.disk.files), reg.dir.value), Memories(next.sessions))
  {
    next := new SessionRegistry(reg.maxQueue, reg.slowGrace, reg.dir, reg.disk);
    Rehydrate(next, acl, scope);
    forall c | c in reg.sessions
      ensures MemoryOf(reg.sessions[c]) == old(MemoryOf(reg.sessions[c]))
    {
    }
  }

  lemma Twice(reg: SessionRegistry, next: SessionRegistry, acl: Acl, acl2: Acl, now: Files, files: Files,
              first: map<string, Memory>, second: map<string, Memory>)
    requires SameNode(next, reg) && reg.dir.Some? && InPlace(reg, files)
    requires Roster(reg, acl, files, ListedPaths(files, reg.dir.value), first)
    requires Replayed(acl, now, files, ListedPaths(files, reg.dir.value))
    requires Roster(next, acl2, now, ListedPaths(now, next.dir.value), second)
    ensures forall c :: c in second <==> c in first && first[c].subs != map[]
    ensures acl2 == acl ==> forall c :: c in second ==> second[c] == first[c]
    ensures Tighter(acl2, acl) ==>
      forall c :: c in second ==> StoredSubs(reg, files, c).Ok? && second[c] == Revived(reg, acl2, files, c)
  {
    forall c
      ensures c in second <==> c in first && first[c].subs != map[]
      ensures acl2 == acl && c in second ==> second[c] == first[c]
      ensures Tighter(acl2, acl) && c in second ==>
        StoredSubs(reg, files, c).Ok? && second[c] == Revived(reg, acl2, files, c)
    {
      SecondRestart(reg, next, acl, acl2, now, files, first, second, c);
      if c in second && (acl2 == acl || Tighter(acl2, acl)) {
        var stored := StoredSubs(reg, files, c).value;
        PermittedInStages(acl, acl2, stored.identity, SubMap(stored.entries));
      }
    }
  }

  /** One file, replayed twice in a row: the second time it is there if and only if it was
      readable and one of its filters is still granted. */
  method RehydrateOneTwice(reg: SessionRegistry, acl: Acl, scope: string, path: string)
    returns (first: bool, second: bool)
    requires SubsFileName(path)
    modifies reg`sessions, reg.disk
    ensures var stored := old(DecodeSubs(reg.FileAt(Some(path))));
      && first == stored.Ok?
      && (second <==> stored.Ok? && Permitted(acl, stored.value.identity, SubMap(stored.value.entries)) != map[])
  {
    var r := RehydrateOne(reg, acl, scope, path);
    first := r.Ok?;
    r := RehydrateOne(reg, acl, scope, path);
    second := r.Ok?;
  }

  /** One stored filter and no rule that grants it: back after one restart, gone after two. */
  method VanishingSession(scope: string) returns (first: bool, second: bool)
    ensures first && !second
  {
    var disk := new Disk();
    var reg := new SessionRegistry(10, true, Some("d"), disk);
    var path, entries := reg.SubsPath("c").value, [("f", AtLeastOnce)];
    SubsPathIsSubsFile(reg, "c");
    TextFits();
    SubsRoundTrip("c", "", entries);
    var image := SaveSubs("c", "", entries);
    disk.files := map[path := image.value];
    NothingGranted("", SubMap(entries));
    first, second := RehydrateOneTwice(reg, Acl([], false), scope, path);
  }

  lemma NothingGranted(user: string, stored: map<string, QoS>)
    ensures Permitted(Acl([], false), user, stored) == map[]
  {
  }

  lemma TextFits()
    ensures ShortText("c") && ShortText("") && ShortText("f")
  {
    EncodeCons('c', "");
    EncodeCons('f', "");
    assert "c" == ['c'] + "" && "f" == ['f'] + "";
  }
}
