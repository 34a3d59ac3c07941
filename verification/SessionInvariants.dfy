/** What holds in every state of every run of a session. */
module SessionInvariants {
  import opened Common
  import opened SessionProtocol

  // ---------------------------------------------------------------- the lock's own fields

  /** A live sink leaves nothing queued, the held kick handle is the newest connection's, and
      a session that ever had a connection is offline exactly when it has no sink. */
  predicate InnerOk(i: Inner) {
    && (i.sink.Some? ==> i.queue == [] && i.kick == Some(i.epoch))
    && (i.kick.Some? ==> i.kick.value == i.epoch)
    && (i.epoch > 0 ==> (i.sink.None? <==> i.offlineSince.Some?))
    && (i.epoch == 0 ==> i.sink.None? && i.kick.None? && i.offlineSince.None?)
  }

  /** Moreover the sink is the newest connection's channel. */
  predicate SinkInv(s: State) {
    var i := s.inner;
    && InnerOk(i)
    && (i.sink.Some? ==> i.sink.value in s.env.chans && s.env.chans[i.sink.value].epoch == i.epoch)
    && (i.epoch == 0 ==> s.env.chans == map[])
    && (i.offlineSince.Some? ==> i.offlineSince.value <= s.env.now)
  }

  /** Every connection has its own epoch, none newer than the session's. */
  predicate ChanInv(s: State) {
    && (forall ch :: ch in s.env.chans ==> 1 <= s.env.chans[ch].epoch <= s.inner.epoch)
    && (forall a, b :: a in s.env.chans && b in s.env.chans && a != b ==> s.env.chans[a].epoch != s.env.chans[b].epoch)
  }

  /** Outside `Attach`, the channels keep their owners and their faults. */
  predicate ChansKept(v: Env, v': Env) {
    && v'.chans.Keys == v.chans.Keys
    && (forall ch :: ch in v.chans ==>
          && v'.chans[ch].epoch == v.chans[ch].epoch
          && (v.chans[ch].closed ==> v'.chans[ch].closed)
          && (v.chans[ch].timedOut ==> v'.chans[ch].timedOut))
  }

  lemma StepKeepsChans(cfg: Config, s: State, e: Event)
    ensures !e.Attach? ==> ChansKept(s.env, Step(cfg, s, e).env) && Step(cfg, s, e).inner.epoch == s.inner.epoch
    ensures s.env.now <= Step(cfg, s, e).env.now
  {
  }

  lemma StepKeepsOwners(cfg: Config, s: State, e: Event)
    requires ChanInv(s)
    ensures ChanInv(Step(cfg, s, e))
  {
    if !e.Attach? {
      StepKeepsChans(cfg, s, e);
    }
  }

  lemma StepKeepsSink(cfg: Config, s: State, e: Event)
    requires SinkInv(s) && ChanInv(s)
    ensures SinkInv(Step(cfg, s, e))
  {
    var s' := Step(cfg, s, e);
    if !e.Attach? {
      StepKeepsChans(cfg, s, e);
      InnerMoves(cfg, s, e);
      assert s.env.chans == map[] ==> s'.env.chans == map[];
    }
  }

  /** How an event other than `Attach` moves the locked fields. */
  lemma InnerMoves(cfg: Config, s: State, e: Event)
    requires !e.Attach?
    ensures var i, i' := s.inner, Step(cfg, s, e).inner;
      || i' == i
      || i' == KickInner(i)
      || (e.Detach? && e.epoch > 0 && i' == DetachInner(i, e.epoch, s.env.now))
      || (exists ch :: i' == EvictInner(i, ch, s.env.now) || i' == ClearInner(i, ch, s.env.now))
      || (i.sink.None? && exists m :: i' == EnqueueInner(i, m, cfg.maxQueue))
  {
  }

  // ---------------------------------------------------------------- the bounded queue

  function Msgs(es: seq<Enq>): (ms: seq<Msg>)
    ensures |ms| == |es|
  {
    seq(|es|, i requires 0 <= i < |es| => es[i].msg)
  }

  /** Everything loaded or enqueued since the last drain, oldest first. */
  function Arrivals(s: State): seq<Msg>
    requires s.env.hist.mark <= |s.env.hist.enqueued|
  {
    s.env.hist.base + Msgs(s.env.hist.enqueued[s.env.hist.mark..])
  }

  predicate QueueInv(cfg: Config, s: State) {
    var h := s.env.hist;
    && h.mark <= |h.enqueued|
    && s.inner.queue == LastN(Arrivals(s), cfg.maxQueue)
    && h.loaded + |h.enqueued| == |s.inner.queue| + |h.drained| + s.inner.dropped
  }

  lemma EnqueueKeepsQueue(cfg: Config, s: State, c: CallId)
    requires QueueInv(cfg, s) && Enabled(cfg, s, Enqueue(c)) && cfg.maxQueue > 0
    ensures QueueInv(cfg, Effect(cfg, s, Enqueue(c)))
  {
    if s.inner.sink.None? {
      var s' := Effect(cfg, s, Enqueue(c));
      var h, h' := s.env.hist, s'.env.hist;
      var m := s.env.calls[c].msg;
      assert h'.enqueued[h.mark..] == h.enqueued[h.mark..] + [Enq(c, m)];
      assert Arrivals(s') == Arrivals(s) + [m];
      PushBoundedIsLastN(Arrivals(s), m, cfg.maxQueue);
    }
  }

  lemma StepKeepsQueue(cfg: Config, s: State, e: Event)
    requires QueueInv(cfg, s) && CallInv(cfg, s)
    ensures QueueInv(cfg, Step(cfg, s, e))
  {
    if Enabled(cfg, s, e) {
      if e.Enqueue? {
        EnqueueKeepsQueue(cfg, s, e.call);
      } else if e.Attach? {
        var h := s.env.hist;
        assert h.enqueued[|h.enqueued|..] == [];
      }
    }
  }

  // ---------------------------------------------------------------- program counters

  /** How far a call can have come, given how many connections attached while it ran. A failed
      attempt was on a channel that closed or timed out, each attempt is on a newer connection
      than the last, and each retry needed a connection of its own. */
  predicate CallOk(cfg: Config, s: State, c: Call) {
    var epoch, sink := s.inner.epoch, s.inner.sink;
    && c.since <= epoch
    && c.iters == c.live + c.retries + (if c.pc.Offline? || c.pc.Queued? || c.pc.Dropped? then 1 else 0)
    && c.retries <= epoch - c.since
    && c.live <= epoch - c.since + 1
    && (match c.pc
        case Head => sink.Some? ==> c.live <= epoch - c.since
        case Sending(ch) => ch in s.env.chans && c.live <= s.env.chans[ch].epoch - c.since + 1
        case Evicting(ch) =>
          ch in s.env.chans && c.live <= s.env.chans[ch].epoch - c.since + 1 && s.env.chans[ch].timedOut
        case Clearing(ch) =>
          && ch in s.env.chans && c.live <= s.env.chans[ch].epoch - c.since + 1
          && (s.env.chans[ch].closed || s.env.chans[ch].timedOut)
        case Offline(seen) =>
          && c.since <= seen <= epoch && (sink.Some? ==> seen < epoch)
          && c.live <= seen - c.since + 1 && c.retries <= seen - c.since
          && c.qos != AtMostOnce && cfg.maxQueue > 0
        case _ => true)
  }

  predicate CallInv(cfg: Config, s: State) {
    forall c :: c in s.env.calls ==> CallOk(cfg, s, s.env.calls[c])
  }

  /** What a call may count on while others act: connections keep their epochs and faults,
      and a sink appears only with a newer epoch. */
  predicate Later(s: State, s': State) {
    && s.inner.epoch <= s'.inner.epoch
    && (forall ch :: ch in s.env.chans ==>
          && ch in s'.env.chans && s'.env.chans[ch].epoch == s.env.chans[ch].epoch
          && (s.env.chans[ch].closed ==> s'.env.chans[ch].closed)
          && (s.env.chans[ch].timedOut ==> s'.env.chans[ch].timedOut))
    && (s'.inner.sink.Some? ==> s.inner.sink.Some? || s.inner.epoch < s'.inner.epoch)
  }

  lemma StepLater(cfg: Config, s: State, e: Event)
    ensures Later(s, Step(cfg, s, e))
  {
    if !e.Attach? {
      StepKeepsChans(cfg, s, e);
      InnerMoves(cfg, s, e);
    }
  }

  lemma WaitingCallKept(cfg: Config, s: State, s': State, c: Call)
    requires CallOk(cfg, s, c) && Later(s, s')
    ensures CallOk(cfg, s', c)
  {
  }

  function Mover(e: Event): Option<CallId> {
    match e
    case Start(c, _, _) => Some(c)
    case ReadSink(c) => Some(c)
    case SendOk(c) => Some(c)
    case SendTimeout(c) => Some(c)
    case SendClosed(c) => Some(c)
    case Evict(c) => Some(c)
    case Clear(c) => Some(c)
    case Enqueue(c) => Some(c)
    case Abort(c) => Some(c)
    case _ => None
  }

  lemma OtherCallsUnmoved(cfg: Config, s: State, e: Event, c: CallId)
    requires Mover(e) != Some(c)
    ensures var s' := Step(cfg, s, e);
      && (c in s'.env.calls <==> c in s.env.calls)
      && (c in s.env.calls ==> s'.env.calls[c] == s.env.calls[c])
  {
  }

  lemma MovedCallKept(cfg: Config, s: State, e: Event, c: CallId)
    requires SinkInv(s) && ChanInv(s) && CallInv(cfg, s) && Mover(e) == Some(c) && Enabled(cfg, s, e)
    ensures CallOk(cfg, Effect(cfg, s, e), Effect(cfg, s, e).env.calls[c])
  {
    if !e.Start? {
      assert CallOk(cfg, s, s.env.calls[c]);
      if e.Clear? {
        ClearedCallKept(cfg, s, c);
      } else if e.ReadSink? || e.Enqueue? {
        LoopCallKept(cfg, s, e, c);
      }
    }
  }

  lemma ClearedCallKept(cfg: Config, s: State, c: CallId)
    requires SinkInv(s) && ChanInv(s) && Enabled(cfg, s, Clear(c)) && CallOk(cfg, s, s.env.calls[c])
    ensures CallOk(cfg, Effect(cfg, s, Clear(c)), Effect(cfg, s, Clear(c)).env.calls[c])
  {
  }

  lemma LoopCallKept(cfg: Config, s: State, e: Event, c: CallId)
    requires SinkInv(s) && (e == ReadSink(c) || e == Enqueue(c))
    requires Enabled(cfg, s, e) && CallOk(cfg, s, s.env.calls[c])
    ensures CallOk(cfg, Effect(cfg, s, e), Effect(cfg, s, e).env.calls[c])
  {
  }

  lemma StepKeepsCall(cfg: Config, s: State, e: Event, c: CallId)
    requires SinkInv(s) && ChanInv(s) && CallInv(cfg, s) && c in Step(cfg, s, e).env.calls
    ensures CallOk(cfg, Step(cfg, s, e), Step(cfg, s, e).env.calls[c])
  {
    if Mover(e) == Some(c) && Enabled(cfg, s, e) {
      MovedCallKept(cfg, s, e, c);
    } else {
      if Enabled(cfg, s, e) {
        OtherCallsUnmoved(cfg, s, e, c);
      }
      StepLater(cfg, s, e);
      WaitingCallKept(cfg, s, Step(cfg, s, e), s.env.calls[c]);
    }
  }

  lemma StepKeepsCalls(cfg: Config, s: State, e: Event)
    requires SinkInv(s) && ChanInv(s) && CallInv(cfg, s)
    ensures CallInv(cfg, Step(cfg, s, e))
  {
    forall c | c in Step(cfg, s, e).env.calls
      ensures CallOk(cfg, Step(cfg, s, e), Step(cfg, s, e).env.calls[c])
    {
      StepKeepsCall(cfg, s, e, c);
    }
  }

  // ---------------------------------------------------------------- effects

  /** How often call `c` appears among the packets ever put on a channel. */
  function Copies(log: seq<Packet>, c: CallId): nat {
    if log == [] then 0
    else
      var last := log[|log| - 1];
      Copies(log[..|log| - 1], c) + if last.Forward? && last.call == c then 1 else 0
  }

  function EnqCopies(es: seq<Enq>, c: CallId): nat {
    if es == [] then 0 else EnqCopies(es[..|es| - 1], c) + if es[|es| - 1].call == c then 1 else 0
  }

  lemma CopiesPush(log: seq<Packet>, p: Packet, c: CallId)
    ensures Copies(log + [p], c) == Copies(log, c) + if p.Forward? && p.call == c then 1 else 0
  {
    assert (log + [p])[..|log|] == log;
  }

  lemma EnqCopiesPush(es: seq<Enq>, e: Enq, c: CallId)
    ensures EnqCopies(es + [e], c) == EnqCopies(es, c) + if e.call == c then 1 else 0
  {
    assert (es + [e])[..|es|] == es;
  }

  /** The copies of call `c` on the channels and among the enqueues are what `pc` says. */
  predicate EffectIs(s: State, c: CallId, pc: Pc) {
    && (pc.Sent? ==> pc.ch in s.env.chans)
    && (forall ch :: ch in s.env.chans ==>
          Copies(s.env.chans[ch].log, c) == if pc == Sent(ch) then 1 else 0)
    && EnqCopies(s.env.hist.enqueued, c) == if pc.Queued? then 1 else 0
  }

  ghost predicate EffectInv(s: State) {
    forall c :: EffectIs(s, c, if c in s.env.calls then s.env.calls[c].pc else Head)
  }

  /** What is on the channels and in the enqueue log carries its call's own message. */
  predicate ContentInv(s: State) {
    && (forall ch, i :: ch in s.env.chans && 0 <= i < |s.env.chans[ch].log| && s.env.chans[ch].log[i].Forward? ==>
          var p := s.env.chans[ch].log[i]; p.call in s.env.calls && p.msg == s.env.calls[p.call].msg)
    && (forall i :: 0 <= i < |s.env.hist.enqueued| ==>
          var e := s.env.hist.enqueued[i]; e.call in s.env.calls && e.msg == s.env.calls[e.call].msg)
  }

  lemma StepKeepsEffect(cfg: Config, s: State, e: Event, c: CallId)
    requires EffectInv(s)
    ensures var s' := Step(cfg, s, e); EffectIs(s', c, if c in s'.env.calls then s'.env.calls[c].pc else Head)
  {
    assert EffectIs(s, c, if c in s.env.calls then s.env.calls[c].pc else Head);
    if Enabled(cfg, s, e) {
      if e.SendOk? {
        SendKeepsEffect(cfg, s, e.call, c);
      } else if e.OwnPacket? {
        CopiesPush(s.env.chans[e.ch].log, Own, c);
      } else if e.Enqueue? {
        EnqCopiesPush(s.env.hist.enqueued, Enq(e.call, s.env.calls[e.call].msg), c);
      } else {
        QuietKeepsEffect(cfg, s, e, c);
      }
    }
  }

  lemma SendKeepsEffect(cfg: Config, s: State, d: CallId, c: CallId)
    requires EffectIs(s, c, if c in s.env.calls then s.env.calls[c].pc else Head)
    requires Enabled(cfg, s, SendOk(d))
    ensures var s' := Effect(cfg, s, SendOk(d)); EffectIs(s', c, if c in s'.env.calls then s'.env.calls[c].pc else Head)
  {
    var ch := s.env.calls[d].pc.ch;
    CopiesPush(s.env.chans[ch].log, Forward(d, s.env.calls[d].msg), c);
  }

  /** Every other event leaves all copies where they are. */
  lemma QuietKeepsEffect(cfg: Config, s: State, e: Event, c: CallId)
    requires EffectIs(s, c, if c in s.env.calls then s.env.calls[c].pc else Head)
    requires Enabled(cfg, s, e) && !e.SendOk? && !e.OwnPacket? && !e.Enqueue?
    ensures var s' := Step(cfg, s, e); EffectIs(s', c, if c in s'.env.calls then s'.env.calls[c].pc else Head)
  {
    var s' := Step(cfg, s, e);
    assert s'.env.hist.enqueued == s.env.hist.enqueued;
    assert forall ch :: ch in s'.env.chans ==>
      s'.env.chans[ch].log == if ch in s.env.chans then s.env.chans[ch].log else [];
  }

  lemma StepKeepsEffects(cfg: Config, s: State, e: Event)
    requires EffectInv(s)
    ensures EffectInv(Step(cfg, s, e))
  {
    var s' := Step(cfg, s, e);
    forall c
      ensures EffectIs(s', c, if c in s'.env.calls then s'.env.calls[c].pc else Head)
    {
      StepKeepsEffect(cfg, s, e, c);
    }
  }

  lemma StepKeepsContent(cfg: Config, s: State, e: Event)
    requires ContentInv(s)
    ensures ContentInv(Step(cfg, s, e))
  {
    if Enabled(cfg, s, e) {
      if e.SendOk? || e.Enqueue? || e.OwnPacket? {
        LoudKeepsContent(cfg, s, e);
      } else {
        QuietKeepsContent(cfg, s, e);
      }
    }
  }

  lemma LoudKeepsContent(cfg: Config, s: State, e: Event)
    requires ContentInv(s) && Enabled(cfg, s, e) && (e.SendOk? || e.Enqueue? || e.OwnPacket?)
    ensures ContentInv(Effect(cfg, s, e))
  {
  }

  lemma QuietKeepsContent(cfg: Config, s: State, e: Event)
    requires ContentInv(s) && Enabled(cfg, s, e) && !e.SendOk? && !e.Enqueue? && !e.OwnPacket?
    ensures ContentInv(Effect(cfg, s, e))
  {
    var s' := Effect(cfg, s, e);
    assert s'.env.hist.enqueued == s.env.hist.enqueued;
    assert forall ch :: ch in s'.env.chans ==>
      s'.env.chans[ch].log == if ch in s.env.chans then s.env.chans[ch].log else [];
    assert forall c :: c in s.env.calls ==> c in s'.env.calls && s'.env.calls[c].msg == s.env.calls[c].msg;
  }

  // ---------------------------------------------------------------- all of them

  ghost predicate Inv(cfg: Config, s: State) {
    && SinkInv(s) && ChanInv(s) && QueueInv(cfg, s) && CallInv(cfg, s) && EffectInv(s) && ContentInv(s)
  }

  lemma BootInv(cfg: Config, file: Option<seq<byte>>, now: Time)
    ensures Inv(cfg, Boot(cfg, file, now))
  {
    var s := Boot(cfg, file, now);
    assert Msgs([]) == [];
    assert Arrivals(s) == s.inner.queue;
  }

  lemma StepInv(cfg: Config, s: State, e: Event)
    requires Inv(cfg, s)
    ensures Inv(cfg, Step(cfg, s, e))
  {
    StepKeepsOwners(cfg, s, e);
    StepKeepsSink(cfg, s, e);
    StepKeepsQueue(cfg, s, e);
    StepKeepsCalls(cfg, s, e);
    StepKeepsEffects(cfg, s, e);
    StepKeepsContent(cfg, s, e);
  }

  lemma {:induction false} RunInv(cfg: Config, s: State, es: seq<Event>)
    requires Inv(cfg, s)
    ensures Inv(cfg, Run(cfg, s, es))
  {
    if es != [] {
      RunInv(cfg, s, es[..|es| - 1]);
      StepInv(cfg, Run(cfg, s, es[..|es| - 1]), es[|es| - 1]);
    }
  }
}
