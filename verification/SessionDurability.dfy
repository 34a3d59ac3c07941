/** The queue file and the queue in memory agree, across any number of restarts. */
module SessionDurability {
  import opened Common
  import opened Codec
  import opened SessionProtocol
  import opened SessionInvariants
  import opened SessionTheorems

  /** What a restart would read is what the session holds. */
  predicate OnDisk(cfg: Config, s: State) {
    Restored(cfg, s.env.file) == s.inner.queue
  }

  lemma RestoredEncodable(cfg: Config, file: Option<seq<byte>>)
    ensures AllEncodable(Restored(cfg, file))
  {
  }

  /** An enqueue keeps file and memory together exactly when the message fits the format. */
  lemma EnqueueDurableIff(cfg: Config, s: State, c: CallId)
    requires cfg.durable && cfg.maxQueue > 0 && OnDisk(cfg, s) && |s.inner.queue| <= cfg.maxQueue
    requires Enabled(cfg, s, Enqueue(c)) && s.inner.sink.None?
    ensures OnDisk(cfg, Step(cfg, s, Enqueue(c))) <==> Encodable(s.env.calls[c].msg)
  {
    var m := s.env.calls[c].msg;
    var q := PushBounded(s.inner.queue, m, cfg.maxQueue);
    RestoredEncodable(cfg, s.env.file);
    assert q[|q| - 1] == m && m in q;
    assert forall x :: x in q ==> x in s.inner.queue || x == m;
    if Encodable(m) {
      QueueRoundTrip(q, cfg.maxQueue);
    } else {
      assert !AllEncodable(q);
    }
  }

  lemma StepOnDiskIff(cfg: Config, s: State, e: Event)
    requires cfg.durable && Inv(cfg, s) && (OnDisk(cfg, s) <==> AllEncodable(s.inner.queue))
    ensures OnDisk(cfg, Step(cfg, s, e)) <==> AllEncodable(Step(cfg, s, e).inner.queue)
  {
    if Enabled(cfg, s, e) {
      if e.Enqueue? && s.inner.sink.None? {
        assert CallOk(cfg, s, s.env.calls[e.call]);
        EnqueuedOnDiskIff(cfg, s, e.call);
      } else if !e.Attach? {
        QuietOnDisk(cfg, s, e);
      }
    }
  }

  lemma EnqueuedOnDiskIff(cfg: Config, s: State, c: CallId)
    requires cfg.durable && cfg.maxQueue > 0 && |s.inner.queue| <= cfg.maxQueue
    requires Enabled(cfg, s, Enqueue(c)) && s.inner.sink.None?
    ensures var s' := Step(cfg, s, Enqueue(c)); OnDisk(cfg, s') <==> AllEncodable(s'.inner.queue)
  {
    var s' := Step(cfg, s, Enqueue(c));
    RestoredEncodable(cfg, s'.env.file);
    if AllEncodable(s'.inner.queue) {
      QueueRoundTrip(s'.inner.queue, cfg.maxQueue);
    }
  }

  lemma QuietOnDisk(cfg: Config, s: State, e: Event)
    requires Enabled(cfg, s, e) && !e.Attach? && (e.Enqueue? ==> s.inner.sink.Some?)
    ensures Step(cfg, s, e).env.file == s.env.file && Step(cfg, s, e).inner.queue == s.inner.queue
  {
  }

  /** After every step of every run, a restart would restore exactly the queue in memory, if and
      only if everything now queued fits the file format. A message that does not fit parts
      memory and file only while it is queued. */
  lemma {:induction false} QueueOnDiskIff(cfg: Config, file: Option<seq<byte>>, now: Time, es: seq<Event>)
    requires cfg.durable
    ensures var s := Reached(cfg, file, now, es); OnDisk(cfg, s) <==> AllEncodable(s.inner.queue)
  {
    if es == [] {
      RestoredEncodable(cfg, file);
    } else {
      var pre, e := es[..|es| - 1], es[|es| - 1];
      QueueOnDiskIff(cfg, file, now, pre);
      ReachedInv(cfg, file, now, pre);
      StepOnDiskIff(cfg, Reached(cfg, file, now, pre), e);
    }
  }

  // ---------------------------------------------------------------- restarts

  /** A session through several lives of its node: each life starts from the file the last
      one left. */
  function Lives(cfg: Config, file: Option<seq<byte>>, now: Time, lives: seq<seq<Event>>): State {
    if lives == [] then Boot(cfg, file, now)
    else
      var before := Lives(cfg, file, now, lives[..|lives| - 1]);
      Reached(cfg, before.env.file, before.env.now, lives[|lives| - 1])
  }

  /** The messages that arrived since the last drain, whichever life they arrived in. */
  function ArrivedSince(cfg: Config, file: Option<seq<byte>>, now: Time, lives: seq<seq<Event>>): seq<Msg> {
    if lives == [] then Restored(cfg, file)
    else
      var s := Lives(cfg, file, now, lives);
      var mark := if s.env.hist.mark <= |s.env.hist.enqueued| then s.env.hist.mark else 0;
      (if s.inner.epoch == 0 then ArrivedSince(cfg, file, now, lives[..|lives| - 1]) else [])
      + Msgs(s.env.hist.enqueued[mark..])
  }

  /** Whenever the node goes down, everything queued fits the file format. */
  predicate FitsAtRestarts(cfg: Config, file: Option<seq<byte>>, now: Time, lives: seq<seq<Event>>) {
    lives != [] ==>
      && FitsAtRestarts(cfg, file, now, lives[..|lives| - 1])
      && AllEncodable(Lives(cfg, file, now, lives[..|lives| - 1]).inner.queue)
  }

  lemma LivesOnDiskIff(cfg: Config, file: Option<seq<byte>>, now: Time, lives: seq<seq<Event>>)
    requires cfg.durable
    ensures var s := Lives(cfg, file, now, lives); OnDisk(cfg, s) <==> AllEncodable(s.inner.queue)
  {
    if lives == [] {
      RestoredEncodable(cfg, file);
    } else {
      var before := Lives(cfg, file, now, lives[..|lives| - 1]);
      QueueOnDiskIff(cfg, before.env.file, before.env.now, lives[|lives| - 1]);
    }
  }

  /** One restart restores the queue if and only if everything queued fits. */
  lemma RestartKeepsQueueIff(cfg: Config, file: Option<seq<byte>>, now: Time, lives: seq<seq<Event>>)
    requires cfg.durable
    ensures var before, after := Lives(cfg, file, now, lives), Lives(cfg, file, now, lives + [[]]);
      after.inner.queue == before.inner.queue <==> AllEncodable(before.inner.queue)
  {
    LivesOnDiskIff(cfg, file, now, lives);
    assert (lives + [[]])[..|lives|] == lives;
  }

  /** Crashes cost nothing: across any number of restarts, at any moments when what is queued
      fits the format, the queue is still the newest `maxQueue` of all messages that arrived
      since the last drain. */
  lemma {:induction false} QueueSurvivesRestarts(cfg: Config, file: Option<seq<byte>>, now: Time,
                                                 lives: seq<seq<Event>>)
    requires cfg.durable && FitsAtRestarts(cfg, file, now, lives)
    ensures Lives(cfg, file, now, lives).inner.queue == LastN(ArrivedSince(cfg, file, now, lives), cfg.maxQueue)
  {
    if lives == [] {
      BootInv(cfg, file, now);
    } else {
      var pre, last := lives[..|lives| - 1], lives[|lives| - 1];
      QueueSurvivesRestarts(cfg, file, now, pre);
      LivesOnDiskIff(cfg, file, now, pre);
      var before := Lives(cfg, file, now, pre);
      ReachedInv(cfg, before.env.file, before.env.now, last);
      LoadedFixed(cfg, before.env.file, before.env.now, last);
      var s := Lives(cfg, file, now, lives);
      if s.inner.epoch == 0 {
        assert s.env.hist.base == before.inner.queue;
        LastNOfLastN(ArrivedSince(cfg, file, now, pre), Msgs(s.env.hist.enqueued[s.env.hist.mark..]), cfg.maxQueue);
      }
    }
  }
}
