/** One MQTT session as a transition system. Connections attach and detach, writer tasks die,
    and any number of `deliver` calls run at once; every event below is one critical section
    on the session's lock, one channel operation, or the passing of time. An event that is not
    possible in a state leaves it unchanged, so every sequence of events is a run. */
module SessionProtocol {
  import opened Common
  import opened Codec

  type ChanId = nat
  type CallId = nat
  type Time = nat

  datatype KickReason = Takeover | SlowConsumer

  /** `grace`: slow consumers are evicted; `durable`: the queue has a file. */
  datatype Config = Config(maxQueue: nat, grace: bool, durable: bool)

  /** The fields behind the session's lock. `kick` names the connection whose handle is held. */
  datatype Inner = Inner(
    epoch: nat,
    sink: Option<ChanId>,
    kick: Option<nat>,
    kickReason: Option<KickReason>,
    queue: seq<Msg>,
    dropped: nat,
    offlineSince: Option<Time>
  )

  // ---------------------------------------------------------------- critical sections

  function AttachInner(i: Inner, ch: ChanId): Inner {
    Inner(i.epoch + 1, Some(ch), Some(i.epoch + 1),
          if i.kick.Some? then Some(Takeover) else i.kickReason, [], i.dropped, None)
  }

  function DetachInner(i: Inner, epoch: nat, now: Time): Inner {
    if i.epoch != epoch then i else i.(sink := None, kick := None, offlineSince := Some(now))
  }

  function KickInner(i: Inner): Inner {
    if i.kick.Some? then i.(kickReason := Some(Takeover)) else i
  }

  function EvictInner(i: Inner, ch: ChanId, now: Time): Inner {
    if i.sink != Some(ch) then i
    else i.(kickReason := Some(SlowConsumer), sink := None, offlineSince := Some(now))
  }

  function ClearInner(i: Inner, ch: ChanId, now: Time): Inner {
    if i.sink != Some(ch) then i else i.(sink := None, offlineSince := Some(now))
  }

  function EnqueueInner(i: Inner, m: Msg, maxQueue: nat): Inner {
    i.(queue := PushBounded(i.queue, m, maxQueue),
       dropped := if |i.queue| >= maxQueue then i.dropped + 1 else i.dropped)
  }

  // ---------------------------------------------------------------- state

  /** A forwarded publish, or a packet the connection sends on its own account. */
  datatype Packet = Forward(call: CallId, msg: Msg) | Own

  /** A connection's outbound channel: everything ever put on it, how much of that the writer
      has taken, and whether the writer is gone. `timedOut` records that a send gave up on it. */
  datatype Chan = Chan(epoch: nat, cap: nat, log: seq<Packet>, taken: nat, closed: bool, timedOut: bool) {
    predicate HasRoom() {
      |log| < taken + cap
    }
  }

  /** Where a `deliver` call stands. `Head` is the top of its loop; `Offline(seen)` has found no
      sink, at epoch `seen`; the others hold the channel of the current attempt. */
  datatype Pc =
    | Head
    | Sending(ch: ChanId)
    | Evicting(ch: ChanId)
    | Clearing(ch: ChanId)
    | Offline(seen: nat)
    | Sent(ch: ChanId)
    | Queued
    | Dropped
    | Aborted

  /** `since` is the epoch when the call began; `iters`, `live` and `retries` count loop
      iterations, attempts on a channel, and retries after a reconnect. */
  datatype Call = Call(msg: Msg, qos: QoS, pc: Pc, since: nat, iters: nat, live: nat, retries: nat)

  datatype Enq = Enq(call: CallId, msg: Msg)

  /** What happened: messages restored at boot and since the last drain, every enqueue, where
      the last drain fell in them, and everything drained. */
  datatype History = History(loaded: nat, base: seq<Msg>, enqueued: seq<Enq>, mark: nat, drained: seq<Msg>)

  /** Everything around the session's own fields. */
  datatype Env = Env(
    file: Option<seq<byte>>,
    chans: map<ChanId, Chan>,
    calls: map<CallId, Call>,
    now: Time,
    hist: History
  )

  datatype State = State(inner: Inner, env: Env)

  function Restored(cfg: Config, file: Option<seq<byte>>): seq<Msg> {
    if !cfg.durable then []
    else match DecodeQueue(file, cfg.maxQueue) case Ok(q) => q case Err(_) => []
  }

  /** A session as a node creates it, from whatever its queue file holds. */
  function Boot(cfg: Config, file: Option<seq<byte>>, now: Time): State {
    var q := Restored(cfg, file);
    State(Inner(0, None, None, None, q, 0, None),
          Env(file, map[], map[], now, History(|q|, q, [], 0, [])))
  }

  // ---------------------------------------------------------------- events

  /** Identity and subscriptions have no part in the state below; the session object and its
      subscription file follow them. */
  datatype Event =
    | Attach(ch: ChanId, cap: nat, identity: string)
    | Detach(epoch: nat)
    | Kick
    | Close(ch: ChanId)
    | Take(ch: ChanId)
    | OwnPacket(ch: ChanId)
    | Tick(d: nat)
    | Subscribe(filter: string, qos: QoS)
    | Unsubscribe(filter: string)
    | Start(call: CallId, msg: Msg, qos: QoS)
    | ReadSink(call: CallId)
    | SendOk(call: CallId)
    | SendTimeout(call: CallId)
    | SendClosed(call: CallId)
    | Evict(call: CallId)
    | Clear(call: CallId)
    | Enqueue(call: CallId)
    | Abort(call: CallId)

  function SetPc(v: Env, c: CallId, pc: Pc): Env
    requires c in v.calls
  {
    v.(calls := v.calls[c := v.calls[c].(pc := pc)])
  }

  function SetChan(v: Env, ch: ChanId, chan: Chan): Env {
    v.(chans := v.chans[ch := chan])
  }

  function PersistQueue(cfg: Config, file: Option<seq<byte>>, q: seq<Msg>): Option<seq<byte>> {
    if !cfg.durable then file
    else match EncodeQueue(q) case Ok(b) => Some(b) case Err(_) => file
  }

  function AttachStep(cfg: Config, s: State, ch: ChanId, cap: nat): State {
    var h := s.env.hist;
    State(AttachInner(s.inner, ch),
          s.env.(file := if cfg.durable then None else s.env.file,
                 chans := s.env.chans[ch := Chan(s.inner.epoch + 1, cap, [], 0, false, false)],
                 hist := h.(base := [], mark := |h.enqueued|, drained := h.drained + s.inner.queue)))
  }

  /** The top of the loop: look at the sink, then either build an attempt, give up, or go on
      to the offline path. */
  function ReadSinkStep(cfg: Config, s: State, c: CallId): State
    requires c in s.env.calls
  {
    var call := s.env.calls[c];
    var next :=
      match s.inner.sink
      case Some(ch) => call.(pc := Sending(ch), iters := call.iters + 1, live := call.live + 1)
      case None =>
        if call.qos == AtMostOnce || cfg.maxQueue == 0
        then call.(pc := Dropped, iters := call.iters + 1)
        else call.(pc := Offline(s.inner.epoch), iters := call.iters + 1);
    s.(env := s.env.(calls := s.env.calls[c := next]))
  }

  /** The locked part of the offline path: retry if a connection came back, else enqueue. */
  function EnqueueStep(cfg: Config, s: State, c: CallId): State
    requires c in s.env.calls
  {
    var call := s.env.calls[c];
    if s.inner.sink.Some? then
      s.(env := s.env.(calls := s.env.calls[c := call.(pc := Head, retries := call.retries + 1)]))
    else
      var inner := EnqueueInner(s.inner, call.msg, cfg.maxQueue);
      var h := s.env.hist;
      State(inner, SetPc(s.env, c, Queued).(
        file := PersistQueue(cfg, s.env.file, inner.queue),
        hist := h.(enqueued := h.enqueued + [Enq(c, call.msg)])))
  }

  predicate At(s: State, c: CallId) {
    c in s.env.calls
  }

  /** Which events can happen. A send may time out whether or not the channel is full at that
      instant: waiting senders hold reservations the buffer does not show. */
  predicate Enabled(cfg: Config, s: State, e: Event) {
    match e
    case Attach(ch, _, _) => ch !in s.env.chans
    case Detach(epoch) => epoch > 0
    case Kick => true
    case Close(ch) => ch in s.env.chans
    case Take(ch) => ch in s.env.chans && !s.env.chans[ch].closed && s.env.chans[ch].taken < |s.env.chans[ch].log|
    case OwnPacket(ch) => ch in s.env.chans && !s.env.chans[ch].closed && s.env.chans[ch].HasRoom()
    case Tick(_) => true
    case Subscribe(_, _) => true
    case Unsubscribe(_) => true
    case Start(c, _, _) => c !in s.env.calls
    case ReadSink(c) => At(s, c) && s.env.calls[c].pc.Head?
    case SendOk(c) =>
      && At(s, c) && s.env.calls[c].pc.Sending?
      && var ch := s.env.calls[c].pc.ch;
         ch in s.env.chans && !s.env.chans[ch].closed && s.env.chans[ch].HasRoom()
    case SendTimeout(c) =>
      && At(s, c) && s.env.calls[c].pc.Sending? && cfg.grace
      && s.env.calls[c].pc.ch in s.env.chans
    case SendClosed(c) =>
      && At(s, c) && s.env.calls[c].pc.Sending?
      && var ch := s.env.calls[c].pc.ch; ch in s.env.chans && s.env.chans[ch].closed
    case Evict(c) => At(s, c) && s.env.calls[c].pc.Evicting?
    case Clear(c) => At(s, c) && s.env.calls[c].pc.Clearing?
    case Enqueue(c) => At(s, c) && s.env.calls[c].pc.Offline?
    case Abort(c) => At(s, c) && s.env.calls[c].pc.Sending?
  }

  function Effect(cfg: Config, s: State, e: Event): State
    requires Enabled(cfg, s, e)
  {
    match e
    case Attach(ch, cap, _) => AttachStep(cfg, s, ch, cap)
    case Detach(epoch) => s.(inner := DetachInner(s.inner, epoch, s.env.now))
    case Kick => s.(inner := KickInner(s.inner))
    case Close(ch) => s.(env := SetChan(s.env, ch, s.env.chans[ch].(closed := true)))
    case Take(ch) => s.(env := SetChan(s.env, ch, s.env.chans[ch].(taken := s.env.chans[ch].taken + 1)))
    case OwnPacket(ch) => s.(env := SetChan(s.env, ch, s.env.chans[ch].(log := s.env.chans[ch].log + [Own])))
    case Tick(d) => s.(env := s.env.(now := s.env.now + d))
    case Subscribe(_, _) => s
    case Unsubscribe(_) => s
    case Start(c, m, qos) =>
      s.(env := s.env.(calls := s.env.calls[c := Call(m, qos, Head, s.inner.epoch, 0, 0, 0)]))
    case ReadSink(c) => ReadSinkStep(cfg, s, c)
    case SendOk(c) =>
      var ch := s.env.calls[c].pc.ch;
      var chan := s.env.chans[ch];
      s.(env := SetPc(SetChan(s.env, ch, chan.(log := chan.log + [Forward(c, s.env.calls[c].msg)])), c, Sent(ch)))
    case SendTimeout(c) =>
      var ch := s.env.calls[c].pc.ch;
      s.(env := SetPc(SetChan(s.env, ch, s.env.chans[ch].(timedOut := true)), c, Evicting(ch)))
    case SendClosed(c) => s.(env := SetPc(s.env, c, Clearing(s.env.calls[c].pc.ch)))
    case Evict(c) =>
      var ch := s.env.calls[c].pc.ch;
      State(EvictInner(s.inner, ch, s.env.now), SetPc(s.env, c, Clearing(ch)))
    case Clear(c) =>
      State(ClearInner(s.inner, s.env.calls[c].pc.ch, s.env.now), SetPc(s.env, c, Head))
    case Enqueue(c) => EnqueueStep(cfg, s, c)
    case Abort(c) => s.(env := SetPc(s.env, c, Aborted))
  }

  function Step(cfg: Config, s: State, e: Event): State {
    if Enabled(cfg, s, e) then Effect(cfg, s, e) else s
  }

  function Run(cfg: Config, s: State, es: seq<Event>): State {
    if es == [] then s else Step(cfg, Run(cfg, s, es[..|es| - 1]), es[|es| - 1])
  }

  lemma {:induction false} RunAppend(cfg: Config, s: State, a: seq<Event>, b: seq<Event>)
    ensures Run(cfg, s, a + b) == Run(cfg, Run(cfg, s, a), b)
    decreases |b|
  {
    if b == [] {
      assert a + b == a;
    } else {
      RunAppend(cfg, s, a, b[..|b| - 1]);
      assert (a + b)[..|a + b| - 1] == a + b[..|b| - 1];
    }
  }

  lemma RunOne(cfg: Config, s: State, e: Event)
    ensures Run(cfg, s, [e]) == Step(cfg, s, e)
  {
    assert [e][..0] == [];
  }
}
