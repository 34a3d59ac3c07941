# Entmoot, verified

Entmoot is an MQTT 3.1.1 broker node on a Zenoh mesh. This project models its four hardest
parts in Dafny and proves what they promise, for every input and every interleaving.

**Sessions.** Connections attach, take over and detach, writer tasks die, slow consumers are
evicted, and any number of `deliver` calls race over one session. `SessionProtocol.dfy` is the
transition system: one event per critical section, channel operation or clock tick, and an
impossible event changes nothing, so a theorem about every event sequence is a theorem about
every run. `SessionInvariants.dfy` proves the invariant, `SessionTheorems.dfy` and
`SessionDurability.dfy` draw the conclusions. `Session.dfy` is the object with its mutable fields
and its two files; `Deliver.dfy` runs the real retry loop on it, lets an arbitrary schedule act
between any two critical sections, and shows the result to be a run of the transition system.
`Registry.dfy`, `Subscriptions.dfy` and `Restart.dfy` add the registry, SUBSCRIBE and the
rehydration of a whole node; `Node.dfy` says what each operation keeps, `Strays.dfy` what sessions
can still do that left the registry, `NodeRuns.dfy` what every run of a node keeps; `Codec.dfy`
and `Utf8.dfy` are the file formats, byte by byte, and `Formats.dfy` whole small files literally.

**Topics.** `Topic.dfy` has the translation between MQTT filters and Zenoh key expressions on
real strings, `Zenoh.dfy` the matching rule of Zenoh, `TopicTheorems.dfy` the exact forwarding
theorem, round trips and keyspaces, `FilterCoverage.dfy` coverage as a decision procedure for
inclusion, `Auth.dfy` the access rules on top.

**Retained messages.** `Retained.dfy` is the store with its match cache, `RetainedCodec.dfy` the
envelope and the snapshot file, `Persister.dfy` the debounced persister racing the writers,
`Replication.dfy` live replication and catch-up.

**Publish rate.** `RateLimiter.dfy` is the token bucket.

`dafny verify dfyconfig.toml` checks everything.

## Where code and documentation part

- `filter_covers` is called conservative in its own comment (crates/entmoot-core/src/topic.rs:159-161).
  For valid filters it is exact, except that it does not let `+/#` cover `#` although `+/#`
  matches every topic (`FilterCoverage.CoverIffInclusion`).
- `attach` with cleanSession=0 resumes a clean session that is still connected, with
  `session_present` set and no state files, where section 3.1.2.4 of MQTT 3.1.1 ends a clean
  session with its connection (`Registry.PersistentTakesOverClean`). `Node.QueuedForPersistent`
  says exactly when a persistent connection ends up without files, and what that costs.
- A clean connection discards stored state, and a sweep an expired session's, but connections and
  deliveries of a session that left the registry may still run. If it keeps files they can write
  them again: the discarded state comes back (`Strays.ActOnReplaced`,
  `Strays.DeliveryBringsBack`), or a newer session's file is overwritten (`Strays.StrayStep`).
- Expiry is meant for every session offline too long (crates/entmoot-node/src/session.rs:131-132
  and 149). A rehydrated session whose client never returns is never swept, and the end of a
  connection that was evicted earlier starts the time anew (`SessionTheorems.ExpiredIff`).
- Rehydration is not a fixpoint: a session none of whose filters is granted any more is registered
  once, with its file deleted, and a second restart does not bring it back
  (`Restart.VanishingSession`, `Restart.RestartTwice`).
- `save_snapshot` cuts lengths to 32 bits without a check, unlike the session files
  (`RetainedCodec.SnapshotRoundTripIff`).
- `rehydrate` cannot see the subscription file of the empty client id, whose name is only an
  extension (`Restart.BackFromOwnFile`); the node never makes a persistent session for that id.

## Model

| member | source | states |
|---|---|---|
| `SessionTheorems.DeliverHasOneEffect` | crates/entmoot-node/src/session.rs:518-575 | In every run, for every `deliver` call: Sent means exactly one packet on exactly one channel, Queued exactly one enqueue, Dropped or still retrying none at all; whatever it left carries its own message. A failed attempt leaves no copy. |
| `SessionTheorems.QueueConservation` | crates/entmoot-node/src/session.rs:338-347 | In every state of every run, loaded + enqueued = queued now + drained + `dropped`, and the queue never exceeds `max_queue`. |
| `SessionTheorems.QueueIsNewestSuffix` | crates/entmoot-node/src/session.rs:564-571 | The queue is always the last `max_queue` messages, in order, of those loaded or enqueued since the last drain, and that suffix is what the next connection's backlog holds. |
| `SessionTheorems.QueueElements` | crates/entmoot-node/src/session.rs:564-571 | Counted from its end the queue holds, message for message, what arrived since the last drain, as much as the bound allows. |
| `SessionTheorems.EpochFence` | crates/entmoot-node/src/session.rs:383-456 | Once a connection holds the sink it keeps it, through any run, until it detaches itself, its own channel closes or times out, or a newer connection attaches. |
| `SessionTheorems.StaleRunsAreInert` | crates/entmoot-node/src/session.rs:412-456 | Any number of detaches of superseded connections and of failing attempts on channels other than the sink, evictions and clean-up included, in any order, change none of the locked fields. |
| `SessionTheorems.OnlineOrOffline` | crates/entmoot-node/src/session.rs:394-402 | In every run: a live sink means an empty queue and no `offline_since`; after the first connection, no sink is the same as `offline_since` being set. |
| `SessionTheorems.ExpiredIff` | crates/entmoot-node/src/session.rs:412-456 | In every run a session is found expired if and only if it ever had a connection and, in the last `expiry` time units, none held the sink and the newest one did not detach. |
| `SessionTheorems.ReasonIsLastKick` | crates/entmoot-node/src/session.rs:388-393 | In every run the kick handle is held exactly until the newest connection detaches, and the kick reason is that of the last kick: takeover or registry kick while the handle is held, slow consumer at an eviction of the sink. |
| `SessionTheorems.DeliverIterationBound` | crates/entmoot-node/src/session.rs:525-574 | In every run, a `deliver` during which k connections attach goes round its loop at most 2k+2 times. |
| `SessionTheorems.IterationBoundIsTight` | crates/entmoot-node/src/session.rs:525-574 | For every k there is a run in which the bound 2k+2 is reached. |
| `SessionInvariants.StepInv` | crates/entmoot-node/src/session.rs:383-575 | Every event keeps the whole invariant: sink and epoch, one epoch per channel, queue contents and count, progress of every pending call, one effect per call, message contents. |
| `SessionInvariants.RunInv` | crates/entmoot-node/src/session.rs:383-575 | The invariant holds after any sequence of events from any state that meets it. |
| `SessionDurability.EnqueueDurableIff` | crates/entmoot-node/src/session.rs:564-571 | An enqueue keeps the queue file and the queue in memory equal exactly when the message fits the file format (topic and payload below 2^32 bytes). |
| `SessionDurability.QueueOnDiskIff` | crates/entmoot-node/src/session.rs:338-347 | After every step of every run, whatever messages it saw, `load_queue` of the file gives exactly the queue in memory if and only if everything now queued fits the file format. |
| `SessionDurability.RestartKeepsQueueIff` | crates/entmoot-node/src/session.rs:338-347 | After any number of lives, one more restart restores the queue if and only if everything queued fits the format. |
| `SessionDurability.QueueSurvivesRestarts` | crates/entmoot-node/src/session.rs:586-606 | Across any number of restarts, at any moments when what is queued fits the format, the queue is still the newest `max_queue` messages that arrived since the last drain, whichever life they arrived in. |
| `Session.SessionState.constructor` | crates/entmoot-node/src/session.rs:331-367 | A new session holds what its queue file decodes to (nothing if absent or malformed), no connection, packet identifier 1. |
| `Session.SessionState.NextPkid` | crates/entmoot-node/src/session.rs:374-381 | The identifier returned is the counter's value, never 0; the counter advances modulo 2^16. |
| `Session.PkidsDistinct` | crates/entmoot-node/src/session.rs:374-381 | In the cycle of packet identifiers none is 0 and none repeats within 65535 steps, from any start. |
| `Session.SessionState.TakePkids` | crates/entmoot-node/src/session.rs:374-381 | n calls of `next_pkid` in a row return the next n identifiers of that cycle, so any two within 65535 calls differ. |
| `Session.SessionState.AttachConn` | crates/entmoot-node/src/session.rs:383-409 | The critical section is the transition system's attach step; the backlog is the whole old queue, the queue file is gone, a truthful subscription file stays truthful under the new identity, and no other file changes. |
| `Session.SessionState.DetachConn` | crates/entmoot-node/src/session.rs:412-421 | Refines the detach step; false exactly when a newer connection took over. |
| `Session.SessionState.KickCurrent` | crates/entmoot-node/src/session.rs:423-429 | Refines the kick step: only the reason changes, and only if a connection is held. |
| `Session.SessionState.EvictSlow` | crates/entmoot-node/src/session.rs:443-456 | Refines the eviction step: nothing unless the sink is still the channel that timed out. |
| `Session.SessionState.ClearSink` | crates/entmoot-node/src/session.rs:548-553 | Refines the clean-up after a failed send: nothing unless the sink is still that channel. |
| `Session.SessionState.TryEnqueue` | crates/entmoot-node/src/session.rs:560-572 | Refines the offline step: retry if a connection is back, else drop-oldest enqueue and rewrite of the queue file; no other file changes. |
| `Session.SessionState.IsExpired` | crates/entmoot-node/src/session.rs:431-438 | Decides expiry as `SessionTheorems.ExpiredIff` speaks of it; the sweep asks it of every session. |
| `Session.SessionState.PersistSubs` | crates/entmoot-node/src/session.rs:506-512 | Afterwards the subscription file decodes to exactly this client, identity and subscription map, or is absent exactly when the map is empty. |
| `Session.SessionState.InsertSub` | crates/entmoot-node/src/session.rs:458-464 | The filter is recorded with its QoS, replacing an older entry, in memory and in the file; no other file changes. |
| `Session.SessionState.RemoveSub` | crates/entmoot-node/src/session.rs:466-472 | The filter is gone from memory and file, and the file with it when it was the last; no other file changes. |
| `Session.SessionState.DiscardStateFiles` | crates/entmoot-node/src/session.rs:480-497 | Exactly the session's own two files are removed. |
| `Deliver.ActOne` | crates/entmoot-node/src/session.rs:383-472 | Every event of the transition system, carried out on the object, changes fields, queue file and packet counter exactly as the step says, takeovers by other identities, SUBSCRIBE and UNSUBSCRIBE included; a truthful subscription file stays truthful and only the session's own files change. |
| `Deliver.Attempt` | crates/entmoot-node/src/session.rs:527-553 | One live attempt is decided by the channel at the end of its wait: open with room, the packet is sent and nothing else happens; open and full without a grace period, the wait never ends; otherwise back at the loop's top with the clean-up done. It is a run of the transition system in which the call gives up only on an open, full channel. |
| `Deliver.OfflinePath` | crates/entmoot-node/src/session.rs:555-572 | The offline path ends Queued or back at the top because a connection returned; it is a run of the transition system. |
| `Deliver.Deliver` | crates/entmoot-node/src/session.rs:518-575 | The retry loop ends whatever the rest of the node does in between; its outcome is the call's state in a run of the transition system, in which it gives up on a channel only when that is open and full; it iterates at most 2k+2 times for k attaches meanwhile; a truthful subscription file stays truthful. If nobody else acts the outcome is decided: Sent and no other change on an open channel with room; stuck on a full one without a grace period; otherwise no sink is left and the message is queued, or dropped at QoS 0 or without a queue; and one packet identifier is taken per live attempt, none at QoS 0. |
| `Registry.PathsDistinct` | crates/entmoot-node/src/session.rs:184-190 | A state file belongs to one client and is of one kind. |
| `Registry.SessionRegistry.Attach` | crates/entmoot-node/src/session.rs:63-129 | Which session a connection gets, `session_present` exactly, the epoch, the backlog, which files survive, and what becomes of a session that a clean connection replaces (kicked, subscriptions gone); truthful files stay truthful; sessions and files of other clients are untouched. |
| `Registry.SessionRegistry.Detach` | crates/entmoot-node/src/session.rs:133-147 | A superseded connection's end changes nothing at all; a current one takes its session offline; a clean session goes with its own files, and never the entry of a newer session. |
| `Registry.SessionRegistry.Sweep` | crates/entmoot-node/src/session.rs:150-165 | Exactly the expired sessions go, none of them connected, with subscriptions and exactly their files; all other sessions are outside the frame and none of their files is removed. |
| `Registry.PersistentTakesOverClean` | crates/entmoot-node/src/session.rs:78-82 | The input that shows it: a persistent connection that takes over a connected clean session resumes it, is told present, and gets no state file. |
| `Node.QueuedForPersistent` | crates/entmoot-node/src/session.rs:78-82 | With a state directory, a persistent connection gets a session without files if and only if one without files is registered for its client; what is queued for it is then never on disk and no restart restores it, and in every other case a restart does. |
| `Node.Perform` | crates/entmoot-node/src/session.rs:443-575 | A step on any session, registered or not: no file changes unless the session keeps files and the step is a valid and granted SUBSCRIBE, an UNSUBSCRIBE, or an enqueue that finds it offline with a queue that fits; then exactly one file is written, and with what. |
| `Strays.StrayStep` | crates/entmoot-node/src/session.rs:458-575 | A session that has left the registry, replaced, ended or swept, takes any step: the registry, all files' places and the truth about every other client stay; its own client's files change only if the step writes; files that were truthful are so after the write exactly if, for an enqueue, no session without files is registered, and for subscriptions, the registered session has the same. |
| `Strays.ActOnReplaced` | crates/entmoot-node/src/session.rs:83-101 | After a clean connection discarded a client's stored state, one further step of the replaced session brings back the subscription file if and only if it keeps files and a SUBSCRIBE is valid and granted, and the queue file if and only if it keeps files and an enqueue finds it offline with a queue that fits. |
| `Strays.DeliveryBringsBack` | crates/entmoot-node/src/session.rs:555-571 | The input that shows it: after a clean connection's discard, a delivery already past its sink check enqueues on the replaced session, and the next persistent connection is told present and receives that queue. |
| `NodeRuns.StepNode` | crates/entmoot-node/src/session.rs:63-165 | Each operation on registered sessions keeps the registry consistent, every subscription file in its place, sessions left behind apart from registered ones, and any one client's truthful files truthful; only a clean connection makes a session without files. |
| `NodeRuns.RunNode` | crates/entmoot-node/src/session.rs:63-165 | From startup through any sequence of connections, disconnections, subscriptions, critical sections of deliveries, sweeps, restarts under changing rules and steps of sessions left behind, up to the first moment when one left behind by this client is about to write: the client's subscription file holds exactly what the registry holds, if at the start it was readable or absent; its queue file restores the queue in memory if and only if that fits the format; a session without files is one that a clean connection created since the last restart. |
| `Codec.ReadWritten` | crates/entmoot-node/src/session.rs:624-643 | Reading a written chunk returns it and leaves the rest untouched. |
| `Codec.CutChunkRejected` | crates/entmoot-node/src/session.rs:624-634 | Every strict prefix of a written chunk is rejected as truncated. |
| `Codec.ToBytesAt` | crates/entmoot-node/src/session.rs:640 | Lengths and times are big-endian: byte i of k is the i-th most significant. |
| `Codec.SaveQueue` | crates/entmoot-node/src/session.rs:608-622 | The buffer-building loop computes the queue image, or fails exactly when some entry is too long. |
| `Codec.LoadQueue` | crates/entmoot-node/src/session.rs:586-606 | The reading loop, which drops the oldest as it goes, computes the bounded decoding of the whole file. |
| `Codec.QueueRoundTrip` | crates/entmoot-node/src/session.rs:586-622 | Loading a saved queue gives its last `max_queue` entries in order. |
| `Codec.TruncatedQueueFile` | crates/entmoot-node/src/session.rs:586-634 | Any strict prefix of a queue file is rejected or holds an initial stretch of the queue. |
| `Codec.SaveSubs` | crates/entmoot-node/src/session.rs:651-671 | The buffer-building loop computes the subscription image. |
| `Codec.LoadSubs` | crates/entmoot-node/src/session.rs:676-698 | The reading loop computes the decoding, and always ends. |
| `Codec.SubsRoundTrip` | crates/entmoot-node/src/session.rs:651-698 | Decoding a saved subscription file returns client, identity and entries. |
| `Codec.HexNameInjective` | crates/entmoot-node/src/session.rs:645-647 | Different client ids have different file names. |
| `Formats.HexDigits` | crates/entmoot-node/src/session.rs:645-647 | A file name is two lower-case hexadecimal digits per byte, the higher one first. |
| `Formats.FileNames` | crates/entmoot-node/src/session.rs:184-190 | The state files of client `a` in directory `d` are `d/61.queue` and `d/61.subs`. |
| `Formats.QueueFile` | crates/entmoot-node/src/session.rs:608-622 | A queue of one message, byte for byte. |
| `Formats.SubscriptionFile` | crates/entmoot-node/src/session.rs:651-671 | A subscription file of one entry, byte for byte, for each QoS. |
| `Formats.Magics` | crates/entmoot-node/src/session.rs:37-38 | The magic bytes spell the source's strings. |
| `Formats.Characters` | crates/entmoot-node/src/session.rs:595-596 | One character of each UTF-8 width, byte for byte. |
| `Utf8.DecodeEncode` | crates/entmoot-node/src/session.rs:595-596 | UTF-8 decoding undoes encoding for every string. |
| `Utf8.EncodeDecode` | crates/entmoot-node/src/session.rs:595-596 | Whatever bytes decode, re-encoding gives the same bytes: no two byte strings decode alike. |
| `Subscriptions.Subscribe` | crates/entmoot-node/src/connection.rs:329-359 | SUBSCRIBE succeeds exactly for a valid and granted filter, so for every valid one under the allow policy; then it is recorded in memory and file, QoS 0 as requested and QoS 1 for anything above; refusal changes nothing; no other file changes. |
| `Subscriptions.Replay` | crates/entmoot-node/src/session.rs:234-242 | Replaying stored entries one by one yields exactly the valid and granted part of the map they describe. |
| `Subscriptions.RehydrateOne` | crates/entmoot-node/src/session.rs:223-249 | The session comes back with the file's client and identity, exactly the stored filters that are valid and that the rules grant to that identity, each with its stored QoS, and the queue of its queue file; the file is rewritten to say so; nothing else changes; an unreadable file changes nothing. |
| `Session.SubMapIs` | crates/entmoot-node/src/session.rs:234-242 | A filter stored more than once has the QoS of its last entry. |
| `Restart.RehydrateOneTwice` | crates/entmoot-node/src/session.rs:223-249 | Replaying one file twice in a row finds it the second time if and only if it was readable and one of its filters is still granted. |
| `Restart.VanishingSession` | crates/entmoot-node/src/session.rs:244-247 | The input that shows it: one stored filter that no rule grants; the session is back after the first replay and the file is gone before the second. |
| `Restart.RestartTwice` | crates/entmoot-node/src/session.rs:193-249 | Two restarts in a row: a session that came back is back again if and only if one of its subscriptions was still granted, then unchanged under the same rules, and under tighter rules exactly what those alone would have made of the first directory. |
| `Restart.Rehydrate` | crates/entmoot-node/src/session.rs:199-221 | Whatever the directory holds: from an empty registry exactly the clients named in a readable listed file come back, each as such a file says; the listed files are rewritten accordingly, unreadable ones and all others are untouched. |
| `Restart.BackFromOwnFile` | crates/entmoot-node/src/session.rs:199-221 | If every file lies in its place, a client's comeback and what it remembers depend on its own file alone; only the empty client id's file is never seen. |
| `Restart.OwnWritesStayInPlace` | crates/entmoot-node/src/session.rs:184-190 | Whoever writes only its own client's two files, and no other client's name into them, keeps every subscription file under its own client's name. |
| `Restart.RestartNode` | crates/entmoot-node/src/session.rs:199-249 | After a crash and restart, a client whose file was truthful is back if and only if its session had files and subscriptions, with the same identity, exactly those of its filters that are valid and granted to that identity, each with its QoS, and the queue it had in memory if and only if that fits the format; its files tell the truth again. |
| `TopicTheorems.PublishableIff` | crates/entmoot-core/src/topic.rs:62-74 | `topic_to_keyexpr` accepts exactly the topics whose every level is non-empty, free of wildcards and Zenoh syntax and does not start with '@', and maps them unchanged below the scope. |
| `TopicTheorems.SubscribableIff` | crates/entmoot-core/src/topic.rs:82-107 | `filter_to_keyexpr` accepts exactly the valid filters: whole-level wildcards, '#' last only, `$SYS`/`$meta` only first, plain levels otherwise. |
| `TopicTheorems.TopicRefusal` | crates/entmoot-core/src/topic.rs:28-74 | A refused topic is empty, or has an empty level, or else the error names what is wrong with its leftmost bad level. |
| `TopicTheorems.FilterRefusal` | crates/entmoot-core/src/topic.rs:28-107 | A refused filter is empty, or has an empty level, or else the error names what is wrong with its leftmost bad level. |
| `Topic.TranslateFilter` | crates/entmoot-core/src/topic.rs:82-107 | The pushing loop computes the recursive translation, leftmost error included. |
| `TopicTheorems.ForwardsIff` | crates/entmoot-core/src/topic.rs:76-135 | For every valid filter, concrete scope and concrete key that surfaces as t: the key expression selects the key if and only if the filter matches t, t is not a `$` topic under a leading wildcard, and no level of t is reserved. |
| `TopicTheorems.PublishedTopicForwards` | crates/entmoot-core/src/topic.rs:62-157 | For a publishable topic, Zenoh's match of the translated filter and `topic_matches` agree. |
| `TopicTheorems.WildcardsMissInternalKeys` | crates/entmoot-core/src/topic.rs:78-81 | A filter that starts with a wildcard selects no `$SYS` or `$meta` key (section 4.7.2 of MQTT 3.1.1). |
| `TopicTheorems.ClientsMissRetainedKeys` | crates/entmoot-core/src/topic.rs:186-189 | No valid filter selects a retained key. |
| `TopicTheorems.RetainedFilterSelects` | crates/entmoot-core/src/topic.rs:196-200 | The store's own subscription selects the retained key of a topic if and only if the topic has no reserved level, and no key of the other keyspaces. |
| `TopicTheorems.TopicRoundTrip` | crates/entmoot-core/src/topic.rs:62-135 | `keyexpr_to_topic` undoes `topic_to_keyexpr` under every scope. |
| `TopicTheorems.InternalRoundTrips` | crates/entmoot-core/src/topic.rs:192-231 | The sys, meta and retained mappings invert for every suffix and scope; a retained key never surfaces. |
| `TopicTheorems.SurfacesIff` | crates/entmoot-core/src/topic.rs:121-135 | Exactly the sys and meta keys below the scope surface, as `$SYS/...` and `$meta/...`, and the keys that do not start with '@', as themselves. |
| `TopicTheorems.RetainedIff` | crates/entmoot-core/src/topic.rs:203-207 | Exactly the retained key of a topic below the scope names that retained topic. |
| `Formats.InternalKeys` | crates/entmoot-core/src/topic.rs:192-231 | The internal keys, literally, with and without a scope. |
| `TopicTheorems.KeyspacesSeparate` | crates/entmoot-core/src/topic.rs:186-231 | A key determines its keyspace and its topic: the four keyspaces are pairwise disjoint and injective. |
| `TopicTheorems.FilterTranslationInjective` | crates/entmoot-core/src/topic.rs:82-107 | Different valid filters get different key expressions. |
| `Topic.MatchTopic` | crates/entmoot-core/src/topic.rs:138-157 | The index loop with early returns computes level-list matching. |
| `TopicTheorems.MatchIffAgree` | crates/entmoot-core/src/topic.rs:138-157 | Matching is what section 4.7.1 of MQTT 3.1.1 says positionally: agreement on the first n levels, and there either '#' or the end of both. |
| `Topic.CoverFilter` | crates/entmoot-core/src/topic.rs:162-184 | The index loop computes level-list coverage. |
| `FilterCoverage.CoverIsPreorder` | crates/entmoot-core/src/topic.rs:159-184 | Coverage is reflexive and transitive on all strings. |
| `FilterCoverage.CoverSound` | crates/entmoot-core/src/topic.rs:159-184 | Whatever the strings, a topic matched by a covered filter is matched by the covering one. |
| `FilterCoverage.CoverIffInclusion` | crates/entmoot-core/src/topic.rs:159-184 | For valid filters coverage is exactly inclusion over the non-empty wildcard-free topics, the single pair `+/#` and `#` apart, which is included but not covered. |
| `FilterCoverage.Uncovered` | crates/entmoot-core/src/topic.rs:159-184 | For every uncovered pair but that one, a topic that the inner filter matches and the outer does not. |
| `Auth.Acl.RulesFor` | crates/entmoot-core/src/auth.rs:59-61 | Exactly the rules for this user or for `*`. |
| `Auth.GrantedForwardsOnlyGranted` | crates/entmoot-core/src/auth.rs:70-75 | Under the deny policy, every key that a granted subscription forwards surfaces as a topic matched by a subscribe pattern of a rule for this user or `*`. |
| `Auth.MayPublishIff` | crates/entmoot-core/src/auth.rs:63-68 | Publishing is allowed if and only if the policy allows, or a publish pattern of a rule for this user or `*` agrees with the topic position by position. |
| `Auth.MaySubscribeIff` | crates/entmoot-core/src/auth.rs:70-75 | For valid patterns, subscribing is allowed if and only if the policy allows, or a subscribe pattern of a rule for this user or `*` includes the filter, the pair `+/#` and `#` apart. |
| `Auth.IncludedIsGranted` | crates/entmoot-core/src/auth.rs:70-75 | Whatever the other patterns, a valid pattern for the user that matches every topic of the filter grants it, that pair apart. |
| `Auth.AllowPolicy` | crates/entmoot-core/src/auth.rs:54-57 | The allow policy allows everything; the deny policy without rules nothing. |
| `Auth.RulesOnlyGrant` | crates/entmoot-core/src/auth.rs:63-75 | More rules never take a permission away. |
| `Auth.RefusalHasWitness` | crates/entmoot-core/src/auth.rs:70-75 | When a filter is refused, each valid pattern of the user (the pair above apart) misses some topic of the filter. |
| `Auth.GrantsDoNotCombine` | crates/entmoot-core/src/auth.rs:70-75 | Patterns count one at a time: `+` and `+/+/#` together match all that `+/#` does, yet do not grant it. |
| `RetainedCodec.EnvelopeRoundTrip` | crates/entmoot-node/src/retained.rs:52-65 | The envelope returns the payload and the write time floored to the millisecond. |
| `RetainedCodec.FloorMsFacts` | crates/entmoot-node/src/retained.rs:53-64 | Flooring loses less than a millisecond, and only once. |
| `Formats.Envelope` | crates/entmoot-node/src/retained.rs:52-59 | An envelope byte for byte: eight bytes of whole milliseconds, then the payload; a time before the epoch counts as the epoch. |
| `Formats.Snapshot` | crates/entmoot-node/src/retained.rs:166-181 | A snapshot of one item, byte for byte. |
| `RetainedCodec.SnapshotRoundTripIff` | crates/entmoot-node/src/retained.rs:132-181 | A snapshot restores the store, to the millisecond, if and only if every topic and payload is below 2^32 bytes; the writer does not check this. |
| `RetainedCodec.RestoreIsStorable` | crates/entmoot-node/src/retained.rs:132-163 | Whatever bytes a snapshot file holds, what is read from it fits the format again and has whole milliseconds. |
| `Retained.RetainedStore.Insert` | crates/entmoot-node/src/retained.rs:106-110 | The topic holds the new value, the flag is set, the cache is empty. |
| `Retained.RetainedStore.Remove` | crates/entmoot-node/src/retained.rs:112-116 | The topic is gone, the flag is set, the cache is empty. |
| `Retained.RetainedStore.Matching` | crates/entmoot-node/src/retained.rs:185-194 | The scan lists every stored item that the filter matches exactly once, and counts itself. |
| `Retained.RetainedStore.MatchingCached` | crates/entmoot-node/src/retained.rs:207-211 | The cached answer lists the same items as a fresh scan; a scan happens only on a miss; the cache stays in agreement. |
| `Retained.RunOps` | crates/entmoot-node/src/retained.rs:106-211 | After any sequence of inserts, removes, cached matches and evictions, every cached answer agrees with a fresh scan, and each filter was scanned at most 1 + changes + its evictions times. |
| `Retained.RetainedStore.SaveSnapshot` | crates/entmoot-node/src/retained.rs:166-181 | The image holds every item once, and brings the store back exactly when everything fits the format. |
| `Retained.RetainedStore.LoadSnapshot` | crates/entmoot-node/src/retained.rs:132-163 | Exactly the items before the first unreadable one go in; the result is their number, or what stopped the reading; a wrong magic changes nothing. |
| `Persister.StepLosesNothing` | crates/entmoot-node/src/retained.rs:106-128 | No atomic step of a writer or of the persister, and no restart, loses track of an unsaved change, whatever is written. |
| `Persister.NoUpdateLost` | crates/entmoot-node/src/retained.rs:242-252 | In every interleaving, restarts included: when no flag is set, no writer is about to set it and the persister is not mid-write, the file restores the store if and only if the store fits the format. |
| `Persister.OneRoundSaves` | crates/entmoot-node/src/retained.rs:242-252 | Once the writers rest, one round of the persister brings the file up to date if and only if the store fits the format. |
| `Persister.Persist` | crates/entmoot-node/src/retained.rs:242-252 | The persister's loop on the store object, with writers acting between any two of its steps, is a run of that transition system, with the same conclusion for its map, flag and file. |
| `Replication.SampleRoundTrip` | crates/entmoot-node/src/retained.rs:293-307 | Key and envelope of a published item give back topic, payload and floored time. |
| `Replication.JourneyKeepsValue` | crates/entmoot-node/src/retained.rs:256-332 | Any number of hops of any kinds keeps topic, payload and the write time to the millisecond; only a snapshot hop asks that the value fits the file format. |
| `Replication.CatchUp` | crates/entmoot-node/src/retained.rs:310-337 | Catch-up merges exactly the readable replies, in order, over what is there. |
| `Replication.JoinLate` | crates/entmoot-node/src/retained.rs:293-337 | A node with an empty store that catches up from one quiescent peer ends with exactly that peer's replica, to the millisecond. |
| `Replication.Follow` | crates/entmoot-node/src/retained.rs:256-286 | The live loop applies every put and delete, ignoring foreign keys and short envelopes. |
| `Replication.ReplicaHoldsStanding` | crates/entmoot-node/src/connection.rs:303-311 | A node that receives what its retained subscription selects of a run of retained publishes holds, for every publishable topic, exactly its last publish, and nothing if that was empty; a topic with a reserved level never arrives. |
| `RateLimiter.Limiter.Allow` | crates/entmoot-node/src/connection.rs:435-449 | One call refills, caps and decides as stated; tokens stay within [0, rate]; rate 0 admits everything. |
| `RateLimiter.Replay` | crates/entmoot-node/src/connection.rs:430-449 | A limiter called at any non-decreasing times gives the answers of the recurrence the theorems speak of. |
| `RateLimiter.WindowBound` | crates/entmoot-node/src/connection.rs:423-449 | In any window of calls at most rate * (1 + window length) are admitted. |
| `RateLimiter.RefusedIff` | crates/entmoot-node/src/connection.rs:423-449 | A call is refused if and only if admitting it would break that bound for some window ending with it. |
| `RateLimiter.LevelBounds` | crates/entmoot-node/src/connection.rs:435-449 | The token level stays within [0, rate] before and after every call. |
| `RateLimiter.SpacedNeverRefused` | crates/entmoot-node/src/connection.rs:435-449 | A call at least 1/rate after the one before is never refused. |

## Left out

- Sockets, TLS, the MQTT packet codec, tokio and the Zenoh transport: a channel is a bounded log that can be full or closed, and Zenoh is its key-matching rule.
- Clocks are parameters or events; the Zenoh subscriber of an accepted filter is taken to start.
- The forwarding task held by a subscription entry (spawned in crates/entmoot-node/src/session.rs:266-285) and its abort: an entry is its filter and QoS; a task in flight appears as a `deliver` call, which may be aborted while it waits in a send.
- Windows between two locks: `attach` between registry and session, clean `detach` between its parts, the removal of the queue file after the session's lock is released, and the sweep between taking sessions out of the registry and discarding their files each count as part of one step.
- A send may time out in the model even while the channel shows room, which allows more runs than the code has.
- `take_kick_reason`, `stats`, the count that `rehydrate` reports, liveness of kicks, and the order of backlog against live traffic, which the code does not decide.
- Failed disk writes and directory listings; the epoch's 64-bit overflow. Atomic operations are taken as sequentially consistent.
- SessionDurability.QueueSurvivesRestarts: asks that what is queued at each restart fits the file format; SessionDurability.RestartKeepsQueueIff shows that one restart needs exactly that.
- Session.SessionState.InsertSub: client id, identity and filters are below 2^32 bytes when encoded; MQTT strings are at most 65535 bytes.
- NodeRuns.RunNode: stops at the first write of a session left behind by the client in question; Strays.StrayStep says what such a write does. A client whose subscription file was unreadable at startup has an untruthful file until its session next writes it.
- Restart.StartUp: assumes that a readable subscription file is named after the client inside it, which NodeRuns.RunNode shows a node keeps; for any other directory Restart.Rehydrate says what comes back, but a session made from a misnamed file keeps that name.
- Restart.RestartTwice: makes the same assumption; two files that name one client would leave open which of them wins.
- Restart.RestartNode: speaks of one client at a time, chosen freely; sessions without subscriptions have no subscription file and come back when their client reconnects, from the queue file (Registry.SessionRegistry.Attach).
- Retained.RetainedStore.LoadSnapshot: wants an empty cache, as at startup where it is called, because it does not invalidate; an in-flight cache loader that races a change, and the cache library itself, are not modelled.
- Mesh-wide convergence: catch-up overwrites unconditionally, so no last-writer-wins law holds.
- RateLimiter.WindowBound: floating point is modelled by real numbers; rounding is not covered.
- QoS 2 exactly-once, which the broker does not provide; admission control, password hashing, metrics, health, configuration parsing, staleness notices and the web console.
