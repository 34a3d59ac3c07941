/** Theorems about every run of a session, in whatever order its tasks are scheduled. */
module SessionTheorems {
  import opened Common
  import opened SessionProtocol
  import opened SessionInvariants

  function Reached(cfg: Config, file: Option<seq<byte>>, now: Time, es: seq<Event>): State {
    Run(cfg, Boot(cfg, file, now), es)
  }

  lemma ReachedInv(cfg: Config, file: Option<seq<byte>>, now: Time, es: seq<Event>)
    ensures Inv(cfg, Reached(cfg, file, now, es))
  {
    BootInv(cfg, file, now);
    RunInv(cfg, Boot(cfg, file, now), es);
  }

  // ---------------------------------------------------------------- one effect per delivery

  /** A finished `deliver` has left one packet on one channel (Sent), or one enqueue (Queued),
      or nothing (Dropped, Aborted); an unfinished one, however often it tried, has left
      nothing yet. What it left carries its own message. */
  lemma DeliverHasOneEffect(cfg: Config, file: Option<seq<byte>>, now: Time, es: seq<Event>, c: CallId)
    requires c in Reached(cfg, file, now, es).env.calls
    ensures var v := Reached(cfg, file, now, es).env;
      var pc := v.calls[c].pc;
      && (pc.Sent? ==> pc.ch in v.chans && Copies(v.chans[pc.ch].log, c) == 1)
      && (forall ch :: ch in v.chans && pc != Sent(ch) ==> Copies(v.chans[ch].log, c) == 0)
      && EnqCopies(v.hist.enqueued, c) == (if pc.Queued? then 1 else 0)
      && (forall ch, p :: ch in v.chans && p in v.chans[ch].log && p.Forward? && p.call == c ==>
            p.msg == v.calls[c].msg)
      && (forall e :: e in v.hist.enqueued && e.call == c ==> e.msg == v.calls[c].msg)
  {
    ReachedInv(cfg, file, now, es);
    var s := Reached(cfg, file, now, es);
    assert EffectIs(s, c, s.env.calls[c].pc);
  }

  /** Nothing is lost unaccounted: what was loaded or enqueued is queued, was drained, or is
      counted as dropped. */
  lemma QueueConservation(cfg: Config, file: Option<seq<byte>>, now: Time, es: seq<Event>)
    ensures var s := Reached(cfg, file, now, es);
      && |s.inner.queue| <= cfg.maxQueue
      && |Restored(cfg, file)| + |s.env.hist.enqueued| == |s.inner.queue| + |s.env.hist.drained| + s.inner.dropped
  {
    ReachedInv(cfg, file, now, es);
    LoadedFixed(cfg, file, now, es);
  }

  lemma {:induction false} LoadedFixed(cfg: Config, file: Option<seq<byte>>, now: Time, es: seq<Event>)
    ensures var s := Reached(cfg, file, now, es);
      && s.env.hist.loaded == |Restored(cfg, file)|
      && s.env.hist.base == (if s.inner.epoch == 0 then Restored(cfg, file) else [])
  {
    if es != [] {
      LoadedFixed(cfg, file, now, es[..|es| - 1]);
      var s, e := Reached(cfg, file, now, es[..|es| - 1]), es[|es| - 1];
      StepKeepsHistory(cfg, s, e);
    }
  }

  lemma StepKeepsHistory(cfg: Config, s: State, e: Event)
    ensures var h, h' := s.env.hist, Step(cfg, s, e).env.hist;
      h'.loaded == h.loaded && (Step(cfg, s, e).inner.epoch == s.inner.epoch ==> h'.base == h.base)
    ensures Step(cfg, s, e).inner.epoch != s.inner.epoch ==>
      Step(cfg, s, e).inner.epoch == s.inner.epoch + 1 && Step(cfg, s, e).env.hist.base == []
  {
  }

  /** The queue is the newest `maxQueue` of the messages loaded or enqueued since the last
      drain, in order, and that is also the backlog the next connection receives. */
  lemma QueueIsNewestSuffix(cfg: Config, file: Option<seq<byte>>, now: Time, es: seq<Event>,
                            ch: ChanId, cap: nat, identity: string)
    ensures var s := Reached(cfg, file, now, es);
      && s.env.hist.mark <= |s.env.hist.enqueued|
      && s.inner.queue == LastN(Arrivals(s), cfg.maxQueue)
      && (ch !in s.env.chans ==>
            Reached(cfg, file, now, es + [Attach(ch, cap, identity)]).env.hist.drained
            == s.env.hist.drained + LastN(Arrivals(s), cfg.maxQueue))
  {
    ReachedInv(cfg, file, now, es);
    RunAppend(cfg, Boot(cfg, file, now), es, [Attach(ch, cap, identity)]);
    RunOne(cfg, Reached(cfg, file, now, es), Attach(ch, cap, identity));
  }

  /** Place by place counted from the end, and as much as fits the bound. */
  predicate EndsWith(arrived: seq<Msg>, queue: seq<Msg>, bound: nat) {
    && |queue| == (if |arrived| <= bound then |arrived| else bound)
    && forall i :: 0 <= i < |queue| ==> queue[i] == arrived[|arrived| - |queue| + i]
  }

  lemma LastNEndsWith(arrived: seq<Msg>, bound: nat)
    ensures EndsWith(arrived, LastN(arrived, bound), bound)
  {
    LastNIs(LastN(arrived, bound), arrived, bound);
  }

  /** Counted from its end, the queue holds message for message what arrived, and as much of it
      as fits the bound. */
  lemma QueueElements(cfg: Config, file: Option<seq<byte>>, now: Time, es: seq<Event>)
    ensures var s := Reached(cfg, file, now, es);
      s.env.hist.mark <= |s.env.hist.enqueued| && EndsWith(Arrivals(s), s.inner.queue, cfg.maxQueue)
  {
    ReachedInv(cfg, file, now, es);
    LastNEndsWith(Arrivals(Reached(cfg, file, now, es)), cfg.maxQueue);
  }

  // ---------------------------------------------------------------- the epoch fence

  /** Once a connection holds the sink, it keeps it until it detaches itself, its own channel
      closes or times out, or a newer connection attaches. */
  lemma {:induction false} EpochFence(cfg: Config, s: State, ch: ChanId, es: seq<Event>)
    requires Inv(cfg, s) && s.inner.sink == Some(ch)
    ensures var s' := Run(cfg, s, es);
      && ch in s'.env.chans
      && (|| (s'.inner.sink == Some(ch) && s'.inner.epoch == s.inner.epoch && s'.inner.kick == Some(s.inner.epoch))
          || Detach(s.inner.epoch) in es
          || s'.env.chans[ch].closed || s'.env.chans[ch].timedOut
          || s'.inner.epoch > s.inner.epoch)
  {
    if es != [] {
      var pre, e := es[..|es| - 1], es[|es| - 1];
      EpochFence(cfg, s, ch, pre);
      RunInv(cfg, s, pre);
      var m := Run(cfg, s, pre);
      StepLater(cfg, m, e);
      assert es == pre + [e];
      if m.inner.sink == Some(ch) && m.inner.epoch == s.inner.epoch {
        FenceStep(cfg, m, ch, e);
      }
    }
  }

  lemma FenceStep(cfg: Config, s: State, ch: ChanId, e: Event)
    requires Inv(cfg, s) && s.inner.sink == Some(ch)
    ensures var s' := Step(cfg, s, e);
      || (s'.inner.sink == Some(ch) && s'.inner.epoch == s.inner.epoch && s'.inner.kick == Some(s.inner.epoch))
      || e == Detach(s.inner.epoch)
      || s'.env.chans[ch].closed || s'.env.chans[ch].timedOut
      || s'.inner.epoch > s.inner.epoch
  {
    StepLater(cfg, s, e);
    if (e.Evict? || e.Clear?) && e.call in s.env.calls {
      assert CallOk(cfg, s, s.env.calls[e.call]);
    }
  }

  /** If the call is on a channel, it is not the sink. */
  predicate OnOldChannel(s: State, c: CallId) {
    c in s.env.calls && (s.env.calls[c].pc.Sending? || s.env.calls[c].pc.Evicting? || s.env.calls[c].pc.Clearing?) ==>
      s.inner.sink != Some(s.env.calls[c].pc.ch)
  }

  /** The detach of a connection other than the newest, or a step of an attempt on a channel
      other than the sink, up to the end of its clean-up. */
  predicate StaleEvent(s: State, e: Event) {
    || (e.Detach? && e.epoch != s.inner.epoch)
    || ((e.SendOk? || e.SendTimeout? || e.SendClosed? || e.Evict? || e.Clear? || e.Abort?) && OnOldChannel(s, e.call))
  }

  lemma StaleStep(cfg: Config, s: State, e: Event, f: Event)
    requires StaleEvent(s, e) && StaleEvent(s, f)
    ensures Step(cfg, s, e).inner == s.inner && StaleEvent(Step(cfg, s, e), f)
  {
  }

  /** Superseded connections and attempts on their channels, however many and in whatever
      order, leave every locked field as it is. */
  lemma {:induction false} StaleRunsAreInert(cfg: Config, s: State, es: seq<Event>)
    requires forall e :: e in es ==> StaleEvent(s, e)
    ensures Run(cfg, s, es).inner == s.inner
    ensures forall e :: StaleEvent(s, e) ==> StaleEvent(Run(cfg, s, es), e)
  {
    if es != [] {
      var pre, last := es[..|es| - 1], es[|es| - 1];
      StaleRunsAreInert(cfg, s, pre);
      assert last in es;
      forall e | StaleEvent(s, e)
        ensures StaleEvent(Run(cfg, s, es), e) && Run(cfg, s, es).inner == s.inner
      {
        StaleStep(cfg, Run(cfg, s, pre), last, e);
      }
      StaleStep(cfg, Run(cfg, s, pre), last, last);
    }
  }

  // ---------------------------------------------------------------- online, offline, expired

  lemma OnlineOrOffline(cfg: Config, file: Option<seq<byte>>, now: Time, es: seq<Event>)
    ensures var i := Reached(cfg, file, now, es).inner;
      && (i.sink.Some? ==> i.queue == [] && i.offlineSince.None?)
      && (i.epoch > 0 ==> (i.sink.None? <==> i.offlineSince.Some?))
  {
    ReachedInv(cfg, file, now, es);
  }

  predicate Expired(i: Inner, now: Time, expiry: nat) {
    i.offlineSince.Some? && now > i.offlineSince.value + expiry
  }

  /** If the session has been offline since `t`, it had no sink at any later time. */
  lemma {:induction false} NoSinkAfter(cfg: Config, file: Option<seq<byte>>, now: Time, es: seq<Event>, j: nat)
    requires j <= |es|
    ensures var s, past := Reached(cfg, file, now, es), Reached(cfg, file, now, es[..j]);
      && past.env.now <= s.env.now
      && (s.inner.offlineSince.Some? && past.inner.sink.Some? ==> past.env.now <= s.inner.offlineSince.value)
  {
    if j == |es| {
      assert es[..j] == es;
      ReachedInv(cfg, file, now, es);
    } else {
      var pre, e := es[..|es| - 1], es[|es| - 1];
      assert pre[..j] == es[..j];
      NoSinkAfter(cfg, file, now, pre, j);
      var s := Reached(cfg, file, now, pre);
      StepKeepsChans(cfg, s, e);
      if !e.Attach? {
        InnerMoves(cfg, s, e);
      }
    }
  }

  /** The newest connection's own detach, whether or not it still holds the sink. */
  predicate CurrentDetach(s: State, e: Event) {
    e.Detach? && e.epoch > 0 && e.epoch == s.inner.epoch
  }

  /** The clock of the offline time was last set to `t` by a step taken at `t`: the newest
      connection detached, or lost the sink it held. */
  lemma {:induction false} ClockSetBy(cfg: Config, file: Option<seq<byte>>, now: Time, es: seq<Event>) returns (j: nat)
    requires Reached(cfg, file, now, es).inner.offlineSince.Some?
    ensures j < |es|
    ensures var past := Reached(cfg, file, now, es[..j]);
      && past.env.now == Reached(cfg, file, now, es).inner.offlineSince.value
      && (CurrentDetach(past, es[j]) || past.inner.sink.Some?)
  {
    if es != [] {
      var n := |es| - 1;
      var s, e := Reached(cfg, file, now, es[..n]), es[n];
      if s.inner.offlineSince == Step(cfg, s, e).inner.offlineSince {
        j := ClockSetBy(cfg, file, now, es[..n]);
        assert es[..n][..j] == es[..j];
      } else {
        j := n;
        if !e.Attach? {
          InnerMoves(cfg, s, e);
        }
      }
    }
  }

  /** Its setting is never taken back. */
  lemma {:induction false} ClockGrows(cfg: Config, file: Option<seq<byte>>, now: Time, es: seq<Event>, j: nat)
    requires j <= |es|
    ensures var i, past := Reached(cfg, file, now, es).inner, Reached(cfg, file, now, es[..j]).inner;
      i.offlineSince.Some? && past.offlineSince.Some? ==> past.offlineSince.value <= i.offlineSince.value
  {
    if j == |es| {
      assert es[..j] == es;
    } else {
      var pre, e := es[..|es| - 1], es[|es| - 1];
      assert pre[..j] == es[..j];
      ClockGrows(cfg, file, now, pre, j);
      ReachedInv(cfg, file, now, es[..j]);
      NoSinkAfter(cfg, file, now, pre, j);
      var s := Reached(cfg, file, now, pre);
      if !e.Attach? {
        InnerMoves(cfg, s, e);
      }
    }
  }

  /** The moment of step `j` lies in the last `expiry` time units. */
  predicate Recent(cfg: Config, file: Option<seq<byte>>, now: Time, es: seq<Event>, expiry: nat, j: nat)
    requires j <= |es|
  {
    Reached(cfg, file, now, es[..j]).env.now + expiry >= Reached(cfg, file, now, es).env.now
  }

  /** In all that time no connection held the sink, and none came to its end. */
  ghost predicate Abandoned(cfg: Config, file: Option<seq<byte>>, now: Time, es: seq<Event>, expiry: nat) {
    forall j :: 0 <= j <= |es| && Recent(cfg, file, now, es, expiry, j) ==>
      && Reached(cfg, file, now, es[..j]).inner.sink.None?
      && (j < |es| ==> !CurrentDetach(Reached(cfg, file, now, es[..j]), es[j]))
  }

  lemma ExpiredIsAbandoned(cfg: Config, file: Option<seq<byte>>, now: Time, es: seq<Event>, expiry: nat, j: nat)
    requires Expired(Reached(cfg, file, now, es).inner, Reached(cfg, file, now, es).env.now, expiry)
    requires j <= |es| && Recent(cfg, file, now, es, expiry, j)
    ensures Reached(cfg, file, now, es[..j]).inner.sink.None?
    ensures j < |es| ==> !CurrentDetach(Reached(cfg, file, now, es[..j]), es[j])
  {
    ReachedInv(cfg, file, now, es);
    NoSinkAfter(cfg, file, now, es, j);
    if j < |es| && CurrentDetach(Reached(cfg, file, now, es[..j]), es[j]) {
      assert es[..j + 1][..j] == es[..j];
      ClockGrows(cfg, file, now, es, j + 1);
    }
  }

  /** A session is found expired if and only if it ever had a connection, and in the last
      `expiry` time units none held its sink and none came to its end. So a session that was
      rehydrated and never taken up again never expires, and the end of an evicted connection
      starts the time anew. */
  lemma ExpiredIff(cfg: Config, file: Option<seq<byte>>, now: Time, es: seq<Event>, expiry: nat)
    ensures var s := Reached(cfg, file, now, es);
      Expired(s.inner, s.env.now, expiry) <==> s.inner.epoch > 0 && Abandoned(cfg, file, now, es, expiry)
  {
    var s := Reached(cfg, file, now, es);
    ReachedInv(cfg, file, now, es);
    if Expired(s.inner, s.env.now, expiry) {
      forall j | 0 <= j <= |es| && Recent(cfg, file, now, es, expiry, j)
        ensures Reached(cfg, file, now, es[..j]).inner.sink.None?
        ensures j < |es| ==> !CurrentDetach(Reached(cfg, file, now, es[..j]), es[j])
      {
        ExpiredIsAbandoned(cfg, file, now, es, expiry, j);
      }
    } else if s.inner.epoch > 0 && Abandoned(cfg, file, now, es, expiry) {
      assert es[..|es|] == es && Recent(cfg, file, now, es, expiry, |es|);
      var j := ClockSetBy(cfg, file, now, es);
      assert Recent(cfg, file, now, es, expiry, j);
    }
  }

  // ---------------------------------------------------------------- kicks and their reasons

  /** Is the newest connection's handle held after the step? */
  predicate HeldAfter(cfg: Config, s: State, held: bool, e: Event) {
    (e.Attach? && Enabled(cfg, s, e)) || (held && !CurrentDetach(s, e))
  }

  /** A step that kicks the newest connection: another takes over, the registry kicks it, or a
      delivery evicts it. */
  function KickOf(cfg: Config, s: State, held: bool, e: Event): Option<KickReason> {
    if held && ((e.Attach? && Enabled(cfg, s, e)) || e.Kick?) then Some(Takeover)
    else if e.Evict? && Enabled(cfg, s, e) && s.inner.sink == Some(s.env.calls[e.call].pc.ch) then Some(SlowConsumer)
    else None
  }

  /** A connection attached after which the newest one has not detached. */
  predicate Held(cfg: Config, file: Option<seq<byte>>, now: Time, es: seq<Event>) {
    es != [] &&
    var pre := es[..|es| - 1];
    HeldAfter(cfg, Reached(cfg, file, now, pre), Held(cfg, file, now, pre), es[|es| - 1])
  }

  /** The reason of the last kick. */
  function LastReason(cfg: Config, file: Option<seq<byte>>, now: Time, es: seq<Event>): Option<KickReason> {
    if es == [] then None
    else
      var pre := es[..|es| - 1];
      var kick := KickOf(cfg, Reached(cfg, file, now, pre), Held(cfg, file, now, pre), es[|es| - 1]);
      if kick.Some? then kick else LastReason(cfg, file, now, pre)
  }

  lemma StepKicks(cfg: Config, s: State, e: Event)
    ensures var i, i' := s.inner, Step(cfg, s, e).inner;
      && (i'.kick.Some? <==> HeldAfter(cfg, s, i.kick.Some?, e))
      && i'.kickReason == (var kick := KickOf(cfg, s, i.kick.Some?, e); if kick.Some? then kick else i.kickReason)
  {
  }

  /** The handle is held exactly as long as the newest connection has not detached, evicted or
      not; and the reason a connection finds is that of the last kick. So an attach after a
      detach leaves the reason alone, and one after an eviction overwrites it. */
  lemma {:induction false} ReasonIsLastKick(cfg: Config, file: Option<seq<byte>>, now: Time, es: seq<Event>)
    ensures var i := Reached(cfg, file, now, es).inner;
      && (i.kick.Some? <==> Held(cfg, file, now, es))
      && i.kickReason == LastReason(cfg, file, now, es)
  {
    if es != [] {
      var pre := es[..|es| - 1];
      ReasonIsLastKick(cfg, file, now, pre);
      StepKicks(cfg, Reached(cfg, file, now, pre), es[|es| - 1]);
    }
  }

  // ---------------------------------------------------------------- termination of deliver

  /** A call during which `k` connections attached went through its loop at most 2k+2 times. */
  lemma DeliverIterationBound(cfg: Config, file: Option<seq<byte>>, now: Time, es: seq<Event>, c: CallId)
    requires c in Reached(cfg, file, now, es).env.calls
    ensures var s := Reached(cfg, file, now, es);
      && s.env.calls[c].since <= s.inner.epoch
      && s.env.calls[c].iters <= 2 * (s.inner.epoch - s.env.calls[c].since) + 2
  {
    ReachedInv(cfg, file, now, es);
    var s := Reached(cfg, file, now, es);
    assert CallOk(cfg, s, s.env.calls[c]);
  }

  /** One more connection that comes and goes while call 0 is on the offline path. */
  function Round(ch: ChanId): seq<Event> {
    [Attach(ch, 1, ""), Enqueue(0), ReadSink(0), Close(ch), SendClosed(0), Clear(0), ReadSink(0)]
  }

  function WorstCase(k: nat, m: Msg): seq<Event> {
    if k == 0 then
      [Attach(0, 1, ""), Start(0, m, AtLeastOnce), ReadSink(0), Close(0), SendClosed(0), Clear(0), ReadSink(0)]
    else WorstCase(k - 1, m) + Round(k)
  }

  /** Call 0 stands at `pc` after `iters` iterations, `k` connections having attached since
      it began. */
  predicate Stage(s: State, k: nat, sink: Option<ChanId>, pc: Pc, iters: nat) {
    && s.inner.epoch == k + 1 && s.inner.sink == sink
    && 0 in s.env.calls && s.env.calls[0].pc == pc
    && s.env.calls[0].qos == AtLeastOnce && s.env.calls[0].since == 1 && s.env.calls[0].iters == iters
    && k in s.env.chans && (forall ch :: ch in s.env.chans ==> ch <= k)
  }

  lemma RunSeven(cfg: Config, s: State, es: seq<Event>)
    requires |es| == 7
    ensures Run(cfg, s, es) ==
      var s3 := Step(cfg, Step(cfg, Step(cfg, s, es[0]), es[1]), es[2]);
      Step(cfg, Step(cfg, Step(cfg, Step(cfg, s3, es[3]), es[4]), es[5]), es[6])
  {
    RunThree(cfg, s, es[..3]);
    RunThree(cfg, Run(cfg, s, es[..3]), es[3..6]);
    RunAppend(cfg, s, es[..3], es[3..6]);
    assert es[..3] + es[3..6] == es[..6];
  }

  lemma RunThree(cfg: Config, s: State, es: seq<Event>)
    requires |es| == 3
    ensures Run(cfg, s, es) == Step(cfg, Step(cfg, Step(cfg, s, es[0]), es[1]), es[2])
  {
    assert es[..2][..1] == es[..1] && es[..1][..0] == [];
    assert Run(cfg, s, es[..1]) == Step(cfg, s, es[0]);
    assert Run(cfg, s, es[..2]) == Step(cfg, Step(cfg, s, es[0]), es[1]);
  }

  lemma AttemptBegins(cfg: Config, s: State, k: nat, n: nat)
    requires Stage(s, k, Some(k), Head, n)
    ensures var s' := Step(cfg, Step(cfg, s, ReadSink(0)), Close(k));
      Stage(s', k, Some(k), Sending(k), n + 1) && s'.env.chans[k].closed
  {
  }

  lemma AttemptFails(cfg: Config, s: State, k: nat, n: nat)
    requires Stage(s, k, Some(k), Sending(k), n) && s.env.chans[k].closed
    ensures Stage(Step(cfg, Step(cfg, s, SendClosed(0)), Clear(0)), k, None, Head, n)
  {
  }

  lemma GoesOffline(cfg: Config, s: State, k: nat, n: nat)
    requires cfg.maxQueue > 0 && Stage(s, k, None, Head, n)
    ensures Stage(Step(cfg, s, ReadSink(0)), k, None, Offline(k + 1), n + 1)
  {
  }

  lemma ReconnectRetries(cfg: Config, s: State, k: nat, n: nat)
    requires Stage(s, k, None, Offline(k + 1), n)
    ensures Stage(Step(cfg, Step(cfg, s, Attach(k + 1, 1, "")), Enqueue(0)), k + 1, Some(k + 1), Head, n)
  {
  }

  lemma FirstAttach(cfg: Config, now: Time, m: Msg)
    ensures var s := Step(cfg, Step(cfg, Boot(cfg, None, now), Attach(0, 1, "")), Start(0, m, AtLeastOnce));
      Stage(s, 0, Some(0), Head, 0)
  {
  }

  /** The bound is reached for every `k`. */
  lemma {:induction false} IterationBoundIsTight(cfg: Config, now: Time, m: Msg, k: nat)
    requires cfg.maxQueue > 0
    ensures Stage(Reached(cfg, None, now, WorstCase(k, m)), k, None, Offline(k + 1), 2 * k + 2)
  {
    var s := Boot(cfg, None, now);
    var s2;
    if k == 0 {
      RunSeven(cfg, s, WorstCase(0, m));
      FirstAttach(cfg, now, m);
      s2 := Step(cfg, Step(cfg, s, Attach(0, 1, "")), Start(0, m, AtLeastOnce));
    } else {
      IterationBoundIsTight(cfg, now, m, k - 1);
      RunAppend(cfg, s, WorstCase(k - 1, m), Round(k));
      s := Reached(cfg, None, now, WorstCase(k - 1, m));
      RunSeven(cfg, s, Round(k));
      ReconnectRetries(cfg, s, k - 1, 2 * k);
      s2 := Step(cfg, Step(cfg, s, Attach(k, 1, "")), Enqueue(0));
    }
    AttemptBegins(cfg, s2, k, 2 * k);
    var s4 := Step(cfg, Step(cfg, s2, ReadSink(0)), Close(k));
    AttemptFails(cfg, s4, k, 2 * k + 1);
    GoesOffline(cfg, Step(cfg, Step(cfg, s4, SendClosed(0)), Clear(0)), k, 2 * k + 1);
  }
}
