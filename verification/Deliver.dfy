/** `deliver` as it runs: the retry loop over the session object, with the rest of the node
    acting between any two of its critical sections. */
module Deliver {
  import opened Common
  import opened Codec
  import opened SessionProtocol
  import opened SessionInvariants
  import opened SessionTheorems
  import opened Session

  // ---------------------------------------------------------------- schedules

  function Attaches(es: seq<Event>): nat {
    if es == [] then 0 else Attaches(es[..|es| - 1]) + if es[|es| - 1].Attach? then 1 else 0
  }

  /** Connections that attach in what is left of a schedule. */
  function AttachesLeft(sched: seq<seq<Event>>): nat {
    if sched == [] then 0 else Attaches(sched[0]) + AttachesLeft(sched[1..])
  }

  /** Identities and filters that fit the subscription file. */
  predicate Short(e: Event) {
    (e.Attach? ==> ShortText(e.identity)) && (e.Subscribe? ==> ShortText(e.filter))
  }

  /** Nobody else moves call `c`. */
  predicate LeavesAlone(es: seq<Event>, c: CallId) {
    forall e :: e in es ==> Mover(e) != Some(c) && Short(e)
  }

  predicate AllLeaveAlone(sched: seq<seq<Event>>, c: CallId) {
    forall es :: es in sched ==> LeavesAlone(es, c)
  }

  /** While others act, call `c` stays where it is and the epoch grows by at most the
      connections that attach. */
  lemma {:induction false} OthersAct(cfg: Config, s: State, es: seq<Event>, c: CallId)
    requires c in s.env.calls && LeavesAlone(es, c)
    ensures var s' := Run(cfg, s, es);
      && c in s'.env.calls && s'.env.calls[c] == s.env.calls[c]
      && s.inner.epoch <= s'.inner.epoch <= s.inner.epoch + Attaches(es)
  {
    if es != [] {
      var pre, e := es[..|es| - 1], es[|es| - 1];
      assert e in es && forall x :: x in pre ==> x in es;
      OthersAct(cfg, s, pre, c);
      var m := Run(cfg, s, pre);
      OtherCallsUnmoved(cfg, m, e, c);
      StepKeepsChans(cfg, m, e);
    }
  }

  // ---------------------------------------------------------------- the run so far

  /** How a state came about: the file and time at boot, and all events since. */
  datatype Past = Past(file: Option<seq<byte>>, now: Time, es: seq<Event>)

  function After(cfg: Config, past: Past): State {
    Reached(cfg, past.file, past.now, past.es)
  }

  function Then(past: Past, es: seq<Event>): Past {
    past.(es := past.es + es)
  }

  /** Call `c` is at a send on a channel that is open and full. */
  predicate FullAt(s: State, c: CallId) {
    && c in s.env.calls && s.env.calls[c].pc.Sending? && s.env.calls[c].pc.ch in s.env.chans
    && !s.env.chans[s.env.calls[c].pc.ch].closed && !s.env.chans[s.env.calls[c].pc.ch].HasRoom()
  }

  /** In `es` call `c` gives up on a channel only when that is open and full. */
  predicate Patient(cfg: Config, past: Past, es: seq<Event>, c: CallId) {
    forall k :: 0 <= k < |es| && es[k] == SendTimeout(c) ==> FullAt(After(cfg, Then(past, es[..k])), c)
  }

  /** `later` goes on from `past`, and call `c` is patient meanwhile. */
  ghost predicate Extends(cfg: Config, later: Past, past: Past, c: CallId) {
    exists es :: later == Then(past, es) && Patient(cfg, past, es, c)
  }

  lemma ThenTwice(past: Past, es: seq<Event>, fs: seq<Event>)
    ensures Then(Then(past, es), fs) == Then(past, es + fs)
  {
    assert past.es + es + fs == past.es + (es + fs);
  }

  lemma PatientAppend(cfg: Config, past: Past, es: seq<Event>, fs: seq<Event>, c: CallId)
    requires Patient(cfg, past, es, c) && Patient(cfg, Then(past, es), fs, c)
    ensures Patient(cfg, past, es + fs, c)
  {
    forall k | 0 <= k < |es + fs| && (es + fs)[k] == SendTimeout(c)
      ensures FullAt(After(cfg, Then(past, (es + fs)[..k])), c)
    {
      if k < |es| {
        assert (es + fs)[..k] == es[..k];
      } else {
        assert (es + fs)[..k] == es + fs[..k - |es|];
        ThenTwice(past, es, fs[..k - |es|]);
      }
    }
  }

  lemma ExtendsTransitive(cfg: Config, d: Past, b: Past, a: Past, c: CallId)
    requires Extends(cfg, d, b, c) && Extends(cfg, b, a, c)
    ensures Extends(cfg, d, a, c)
  {
    var es :| b == Then(a, es) && Patient(cfg, a, es, c);
    var fs :| d == Then(b, fs) && Patient(cfg, b, fs, c);
    PatientAppend(cfg, a, es, fs, c);
    ThenTwice(a, es, fs);
  }

  lemma ExtendsByOne(cfg: Config, past: Past, e: Event, c: CallId)
    requires e == SendTimeout(c) ==> FullAt(After(cfg, past), c)
    ensures Extends(cfg, Then(past, [e]), past, c)
  {
    assert [e][..0] == [] && past.es + [] == past.es;
    assert Then(past, [e][..0]) == past;
    assert Patient(cfg, past, [e], c);
  }

  lemma ExtendsByOthers(cfg: Config, past: Past, es: seq<Event>, c: CallId)
    requires LeavesAlone(es, c)
    ensures Extends(cfg, Then(past, es), past, c)
  {
    assert forall k :: 0 <= k < |es| ==> es[k] in es;
    assert Patient(cfg, past, es, c);
  }

  lemma ExtendsByNothing(cfg: Config, past: Past, c: CallId)
    ensures Extends(cfg, past, past, c)
  {
    assert past.es + [] == past.es;
    assert past == Then(past, []) && Patient(cfg, past, [], c);
  }

  lemma AfterThen(cfg: Config, past: Past, es: seq<Event>)
    ensures After(cfg, Then(past, es)) == Run(cfg, After(cfg, past), es)
  {
    RunAppend(cfg, Boot(cfg, past.file, past.now), past.es, es);
  }

  lemma AfterOne(cfg: Config, past: Past, e: Event)
    ensures After(cfg, Then(past, [e])) == Step(cfg, After(cfg, past), e)
  {
    AfterThen(cfg, past, [e]);
    RunOne(cfg, After(cfg, past), e);
  }

  /** A live attempt at QoS 1 or 2 begins: it takes the next packet identifier. */
  predicate TakesId(cfg: Config, s: State, e: Event) {
    e.ReadSink? && Enabled(cfg, s, e) && s.inner.sink.Some? && s.env.calls[e.call].qos != AtMostOnce
  }

  /** How many identifiers a run has taken. */
  function Taken(cfg: Config, past: Past): nat
    decreases |past.es|
  {
    if past.es == [] then 0
    else
      var before := past.(es := past.es[..|past.es| - 1]);
      Taken(cfg, before) + if TakesId(cfg, After(cfg, before), past.es[|past.es| - 1]) then 1 else 0
  }

  lemma TakenOne(cfg: Config, past: Past, e: Event)
    ensures Taken(cfg, Then(past, [e])) == Taken(cfg, past) + if TakesId(cfg, After(cfg, past), e) then 1 else 0
  {
    assert (past.es + [e])[..|past.es|] == past.es;
  }

  /** The counter after one more identifier has been taken. */
  function NextCounter(pkid: nat): nat {
    PkidAfter(if pkid == 0 then 1 else pkid)
  }

  /** The counter after `n` identifiers have been taken. */
  function Counter(n: nat): nat {
    if n == 0 then 1 else NextCounter(Counter(n - 1))
  }

  lemma CounterNext(n: nat, taken: bool)
    ensures Counter(n + if taken then 1 else 0) == if taken then NextCounter(Counter(n)) else Counter(n)
  {
  }

  /** The object and its surroundings are where the run `past` leads: the session's fields, its
      queue file, its packet counter. */
  predicate Tracks(s: SessionState, env: Env, past: Past)
    reads s, s.disk
  {
    s.Valid() && s.Whole(env) == After(s.Cfg(), past) && s.pkid == Counter(Taken(s.Cfg(), past))
  }

  /** What the loop relies on wherever call `c` stands. */
  lemma CallFacts(cfg: Config, past: Past, c: CallId)
    requires c in After(cfg, past).env.calls
    ensures var s := After(cfg, past);
      var call := s.env.calls[c];
      && call.since <= s.inner.epoch
      && call.iters <= 2 * (s.inner.epoch - call.since) + 2
      && (call.pc.Head? ==> call.iters <= 2 * (s.inner.epoch - call.since) + 1)
      && (call.pc.Sending? ==> call.pc.ch in s.env.chans)
      && (call.pc.Offline? ==> cfg.maxQueue > 0)
  {
    ReachedInv(cfg, past.file, past.now, past.es);
    assert CallOk(cfg, After(cfg, past), After(cfg, past).env.calls[c]);
  }

  // ---------------------------------------------------------------- interference

  /** What connections do to the session. */
  method ActOfConnection(s: SessionState, env: Env, ghost past: Past, e: Event) returns (env': Env)
    requires e.Attach? || e.Detach? || e.Kick?
    requires s.Valid() && Short(e) && s.Whole(env) == After(s.Cfg(), past)
    modifies s, s.disk
    ensures s.Valid() && s.Whole(env') == Step(s.Cfg(), old(s.Whole(env)), e)
    ensures InOrder(s.Books(), old(s.Books()))
    ensures s.pkid == if TakesId(s.Cfg(), old(s.Whole(env)), e) then NextCounter(old(s.pkid)) else old(s.pkid)
  {
    var cfg, before := s.Cfg(), s.Whole(env);
    env' := Step(cfg, before, e).env;
    if Enabled(cfg, before, e) {
      match e {
        case Attach(ch, _, identity) =>
          var _, _ := s.AttachConn(identity, ch);
        case Detach(epoch) =>
          var _ := s.DetachConn(epoch, env.now);
        case Kick =>
          s.KickCurrent();
      }
    }
  }

  /** What they do to its subscriptions. */
  method ActOfSubscriber(s: SessionState, env: Env, ghost past: Past, e: Event) returns (env': Env)
    requires e.Subscribe? || e.Unsubscribe?
    requires s.Valid() && Short(e) && s.Whole(env) == After(s.Cfg(), past)
    modifies s, s.disk
    ensures s.Valid() && s.Whole(env') == Step(s.Cfg(), old(s.Whole(env)), e)
    ensures InOrder(s.Books(), old(s.Books()))
    ensures s.pkid == if TakesId(s.Cfg(), old(s.Whole(env)), e) then NextCounter(old(s.pkid)) else old(s.pkid)
  {
    env' := Step(s.Cfg(), s.Whole(env), e).env;
    match e {
      case Subscribe(filter, qos) =>
        s.InsertSub(filter, qos);
      case Unsubscribe(filter) =>
        s.RemoveSub(filter);
    }
  }

  /** What other deliveries do under the session's lock. */
  method ActOfDelivery(s: SessionState, env: Env, ghost past: Past, e: Event) returns (env': Env)
    requires e.ReadSink? || e.Evict? || e.Clear? || e.Enqueue?
    requires s.Valid() && Short(e) && s.Whole(env) == After(s.Cfg(), past)
    modifies s, s.disk
    ensures s.Valid() && s.Whole(env') == Step(s.Cfg(), old(s.Whole(env)), e)
    ensures InOrder(s.Books(), old(s.Books()))
    ensures s.pkid == if TakesId(s.Cfg(), old(s.Whole(env)), e) then NextCounter(old(s.pkid)) else old(s.pkid)
  {
    var cfg, before := s.Cfg(), s.Whole(env);
    env' := Step(cfg, before, e).env;
    if Enabled(cfg, before, e) {
      match e {
        case ReadSink(c) =>
          if s.sink.Some? && env.calls[c].qos != AtMostOnce {
            var _ := s.NextPkid();
          }
        case Evict(c) =>
          s.EvictSlow(env.calls[c].pc.ch, env.now);
        case Clear(c) =>
          s.ClearSink(env.calls[c].pc.ch, env.now);
        case Enqueue(c) =>
          CallFacts(cfg, past, c);
          var _ := s.TryEnqueue(env.calls[c].msg);
      }
    }
  }

  /** One event of the rest of the node, carried out on the session object. The subscription
      file stays truthful, and only the session's own files change. */
  method ActOne(s: SessionState, env: Env, ghost past: Past, e: Event) returns (env': Env)
    requires s.Valid() && Short(e) && s.Whole(env) == After(s.Cfg(), past)
    modifies s, s.disk
    ensures s.Valid() && s.Whole(env') == Step(s.Cfg(), old(s.Whole(env)), e)
    ensures InOrder(s.Books(), old(s.Books()))
    ensures s.pkid == if TakesId(s.Cfg(), old(s.Whole(env)), e) then NextCounter(old(s.pkid)) else old(s.pkid)
  {
    match e {
      case Attach(_, _, _) => env' := ActOfConnection(s, env, past, e);
      case Detach(_) => env' := ActOfConnection(s, env, past, e);
      case Kick => env' := ActOfConnection(s, env, past, e);
      case Subscribe(_, _) => env' := ActOfSubscriber(s, env, past, e);
      case Unsubscribe(_) => env' := ActOfSubscriber(s, env, past, e);
      case ReadSink(_) => env' := ActOfDelivery(s, env, past, e);
      case Evict(_) => env' := ActOfDelivery(s, env, past, e);
      case Clear(_) => env' := ActOfDelivery(s, env, past, e);
      case Enqueue(_) => env' := ActOfDelivery(s, env, past, e);
      case _ =>
        env' := Step(s.Cfg(), s.Whole(env), e).env;
    }
  }

  method ActAfter(s: SessionState, env: Env, ghost past: Past, e: Event) returns (env': Env)
    requires Tracks(s, env, past) && Short(e)
    modifies s, s.disk
    ensures Tracks(s, env', Then(past, [e])) && InOrder(s.Books(), old(s.Books()))
  {
    ghost var takes := TakesId(s.Cfg(), s.Whole(env), e);
    AfterOne(s.Cfg(), past, e);
    TakenOne(s.Cfg(), past, e);
    CounterNext(Taken(s.Cfg(), past), takes);
    env' := ActOne(s, env, past, e);
    assert s.pkid == if takes then NextCounter(old(s.pkid)) else old(s.pkid);
  }

  /** One event after another. */
  method Interfere(s: SessionState, env: Env, ghost past: Past, es: seq<Event>) returns (env': Env)
    requires Tracks(s, env, past) && forall e :: e in es ==> Short(e)
    modifies s, s.disk
    ensures Tracks(s, env', Then(past, es)) && InOrder(s.Books(), old(s.Books()))
    decreases |es|
  {
    if es == [] {
      ThenNothing(past);
      env' := env;
    } else {
      ThenSplit(past, es);
      env' := ActAfter(s, env, past, es[0]);
      env' := Interfere(s, env', Then(past, [es[0]]), es[1..]);
    }
  }

  lemma ThenNothing(past: Past)
    ensures Then(past, []) == past
  {
    assert past.es + [] == past.es;
  }

  lemma ThenSplit(past: Past, es: seq<Event>)
    requires es != []
    ensures Then(past, es) == Then(Then(past, [es[0]]), es[1..])
    ensures es[0] in es && forall e :: e in es[1..] ==> e in es
  {
    assert past.es + es == past.es + [es[0]] + es[1..];
  }

  /** The next stretch of the schedule, if any is left. */
  method Wait(s: SessionState, env: Env, ghost past: Past, sched: seq<seq<Event>>, ghost c: CallId)
    returns (env': Env, ghost past': Past, rest: seq<seq<Event>>)
    requires Tracks(s, env, past) && c in env.calls && AllLeaveAlone(sched, c)
    modifies s, s.disk
    ensures Tracks(s, env', past') && InOrder(s.Books(), old(s.Books())) && Extends(s.Cfg(), past', past, c)
    ensures c in env'.calls && env'.calls[c] == env.calls[c]
    ensures rest == (if sched == [] then [] else sched[1..]) && AllLeaveAlone(rest, c)
    ensures old(s.epoch) <= s.epoch && s.epoch + AttachesLeft(rest) <= old(s.epoch) + AttachesLeft(sched)
    ensures past' == if sched == [] then past else Then(past, sched[0])
    ensures sched == [] ==> env' == env && s.View() == old(s.View()) && s.pkid == old(s.pkid)
  {
    if sched == [] {
      env', past', rest := env, past, [];
      ExtendsByNothing(s.Cfg(), past, c);
    } else {
      var es := sched[0];
      rest, past' := sched[1..], Then(past, es);
      OthersAct(s.Cfg(), s.Whole(env), es, c);
      AfterThen(s.Cfg(), past, es);
      ExtendsByOthers(s.Cfg(), past, es, c);
      env' := Interfere(s, env, past, es);
    }
  }

  // ---------------------------------------------------------------- the call's own steps

  /** A step of the call that leaves the session's fields alone. */
  method Own(s: SessionState, env: Env, ghost past: Past, e: Event, ghost c: CallId)
    returns (env': Env, ghost past': Past)
    requires s.Whole(env) == After(s.Cfg(), past)
    requires e.SendOk? || e.SendClosed? || e.SendTimeout? || e.ReadSink? || e.Start?
    requires e == SendTimeout(c) ==> FullAt(s.Whole(env), c)
    ensures past' == Then(past, [e]) && Extends(s.Cfg(), past', past, c)
    ensures s.Whole(env') == After(s.Cfg(), past') && env' == Step(s.Cfg(), s.Whole(env), e).env
    ensures Tracks(s, env, past) && !TakesId(s.Cfg(), s.Whole(env), e) ==> Tracks(s, env', past')
    ensures Taken(s.Cfg(), past') == Taken(s.Cfg(), past) + if TakesId(s.Cfg(), s.Whole(env), e) then 1 else 0
  {
    AfterOne(s.Cfg(), past, e);
    TakenOne(s.Cfg(), past, e);
    ExtendsByOne(s.Cfg(), past, e, c);
    past' := Then(past, [e]);
    env' := Step(s.Cfg(), s.Whole(env), e).env;
  }

  /** How a failing send moves the call, and nothing else that matters here. */
  lemma FailingSend(cfg: Config, s: State, c: CallId, tx: ChanId)
    requires c in s.env.calls && s.env.calls[c].pc == Sending(tx) && tx in s.env.chans
    ensures s.env.chans[tx].closed ==>
      (var v := Step(cfg, s, SendClosed(c)).env;
       v.calls == s.env.calls[c := s.env.calls[c].(pc := Clearing(tx))] && v.now == s.env.now)
    ensures cfg.grace ==>
      (var v := Step(cfg, s, SendTimeout(c)).env;
       v.calls == s.env.calls[c := s.env.calls[c].(pc := Evicting(tx))] && v.now == s.env.now)
  {
  }

  /** The outcome of a send that cannot wait any longer: refused by a closed channel, or given
      up after the grace period on a full one. */
  method SendFails(s: SessionState, env: Env, ghost past: Past, c: CallId, tx: ChanId)
    returns (env': Env, ghost past': Past)
    requires Tracks(s, env, past)
    requires c in env.calls && env.calls[c].pc == Sending(tx) && tx in env.chans
    requires env.chans[tx].closed || (s.slowGrace && !env.chans[tx].HasRoom())
    ensures Extends(s.Cfg(), past', past, c) && Tracks(s, env', past') && env'.now == env.now
    ensures var pc := if env.chans[tx].closed then Clearing(tx) else Evicting(tx);
      env'.calls == env.calls[c := env.calls[c].(pc := pc)]
  {
    FailingSend(s.Cfg(), s.Whole(env), c, tx);
    if env.chans[tx].closed {
      env', past' := Own(s, env, past, SendClosed(c), c);
    } else {
      env', past' := Own(s, env, past, SendTimeout(c), c);
    }
  }

  method SendSucceeds(s: SessionState, env: Env, ghost past: Past, c: CallId, tx: ChanId)
    returns (env': Env, ghost past': Past)
    requires Tracks(s, env, past)
    requires c in env.calls && env.calls[c].pc == Sending(tx) && tx in env.chans
    requires !env.chans[tx].closed && env.chans[tx].HasRoom()
    ensures past' == Then(past, [SendOk(c)]) && Extends(s.Cfg(), past', past, c) && Tracks(s, env', past')
    ensures env'.calls == env.calls[c := env.calls[c].(pc := Pc.Sent(tx))] && env'.now == env.now
  {
    env', past' := Own(s, env, past, SendOk(c), c);
  }

  /** How the top of the loop moves the call. */
  lemma LoopHead(cfg: Config, s: State, c: CallId)
    requires c in s.env.calls && s.env.calls[c].pc == Head
    ensures var v, was := Step(cfg, s, ReadSink(c)).env, s.env.calls[c];
      && c in v.calls && v.calls[c].iters == was.iters + 1 && v.calls[c].since == was.since
      && v.calls[c].msg == was.msg && v.calls[c].qos == was.qos && v.chans == s.env.chans && v.now == s.env.now
      && (match s.inner.sink
          case Some(tx) => v.calls[c].pc == Sending(tx)
          case None =>
            if was.qos == AtMostOnce || cfg.maxQueue == 0 then v.calls[c].pc == Pc.Dropped
            else v.calls[c].pc.Offline?)
    ensures TakesId(cfg, s, ReadSink(c)) <==> s.inner.sink.Some? && s.env.calls[c].qos != AtMostOnce
  {
  }

  /** The identifier that the run has just taken. */
  method TakeId(s: SessionState, env: Env, ghost past: Past, ghost n: nat)
    requires s.Valid() && s.Whole(env) == After(s.Cfg(), past)
    requires s.pkid == Counter(n) && Taken(s.Cfg(), past) == n + 1
    modifies s`pkid
    ensures Tracks(s, env, past) && s.pkid == NextCounter(old(s.pkid))
  {
    CounterNext(n, true);
    var _ := s.NextPkid();
  }

  /** The top of the loop. A live attempt takes a packet identifier unless it is QoS 0. */
  method LookAtSink(s: SessionState, env: Env, ghost past: Past, c: CallId)
    returns (sink: Option<ChanId>, env': Env, ghost past': Past)
    requires Tracks(s, env, past) && c in env.calls && env.calls[c].pc == Head
    modifies s`pkid
    ensures Extends(s.Cfg(), past', past, c) && Tracks(s, env', past')
    ensures c in env'.calls && env'.calls[c].iters == env.calls[c].iters + 1
    ensures env'.calls[c].since == env.calls[c].since
    ensures env'.calls[c].msg == env.calls[c].msg && env'.calls[c].qos == env.calls[c].qos
    ensures env'.chans == env.chans && env'.now == env.now
    ensures sink == s.sink
    ensures match sink
      case Some(tx) => env'.calls[c].pc == Sending(tx)
      case None =>
        if env.calls[c].qos == AtMostOnce || s.maxQueue == 0 then env'.calls[c].pc == Pc.Dropped
        else env'.calls[c].pc.Offline?
    ensures s.pkid == if sink.Some? && env.calls[c].qos != AtMostOnce then NextCounter(old(s.pkid)) else old(s.pkid)
  {
    sink := s.sink;
    LoopHead(s.Cfg(), s.Whole(env), c);
    env', past' := Own(s, env, past, ReadSink(c), c);
    if sink.Some? && env.calls[c].qos != AtMostOnce {
      TakeId(s, env', past', Taken(s.Cfg(), past));
    }
  }

  method Evicted(s: SessionState, env: Env, ghost past: Past, c: CallId, tx: ChanId)
    returns (env': Env, ghost past': Past)
    requires Tracks(s, env, past) && c in env.calls && env.calls[c].pc == Evicting(tx)
    modifies s`sink, s`kickReason, s`offlineSince
    ensures Extends(s.Cfg(), past', past, c) && Tracks(s, env', past')
    ensures env'.calls == env.calls[c := env.calls[c].(pc := Clearing(tx))] && env'.now == env.now
    ensures s.View() == EvictInner(old(s.View()), tx, env.now)
  {
    AfterOne(s.Cfg(), past, Evict(c));
    TakenOne(s.Cfg(), past, Evict(c));
    ExtendsByOne(s.Cfg(), past, Evict(c), c);
    past' := Then(past, [Evict(c)]);
    env' := Step(s.Cfg(), s.Whole(env), Evict(c)).env;
    s.EvictSlow(tx, env.now);
  }

  method Cleared(s: SessionState, env: Env, ghost past: Past, c: CallId, tx: ChanId)
    returns (env': Env, ghost past': Past)
    requires Tracks(s, env, past) && c in env.calls && env.calls[c].pc == Clearing(tx)
    modifies s`sink, s`offlineSince
    ensures Extends(s.Cfg(), past', past, c) && Tracks(s, env', past')
    ensures env'.calls == env.calls[c := env.calls[c].(pc := Head)] && env'.now == env.now
    ensures s.View() == ClearInner(old(s.View()), tx, env.now)
  {
    AfterOne(s.Cfg(), past, Clear(c));
    TakenOne(s.Cfg(), past, Clear(c));
    ExtendsByOne(s.Cfg(), past, Clear(c), c);
    past' := Then(past, [Clear(c)]);
    env' := Step(s.Cfg(), s.Whole(env), Clear(c)).env;
    s.ClearSink(tx, env.now);
  }

  method Enqueued(s: SessionState, env: Env, ghost past: Past, c: CallId)
    returns (queued: bool, env': Env, ghost past': Past)
    requires Tracks(s, env, past) && c in env.calls && env.calls[c].pc.Offline?
    modifies s`queue, s`dropped, s.disk
    ensures Extends(s.Cfg(), past', past, c) && Tracks(s, env', past')
    ensures queued == s.sink.None? && InOrder(s.Books(), old(s.Books()))
    ensures c in env'.calls && env'.now == env.now
    ensures env'.calls[c] == env.calls[c].(pc := env'.calls[c].pc, retries := env'.calls[c].retries)
    ensures env'.calls[c].pc == if queued then Pc.Queued else Head
    ensures s.View() == if queued then EnqueueInner(old(s.View()), env.calls[c].msg, s.maxQueue) else old(s.View())
  {
    CallFacts(s.Cfg(), past, c);
    AfterOne(s.Cfg(), past, Enqueue(c));
    TakenOne(s.Cfg(), past, Enqueue(c));
    ExtendsByOne(s.Cfg(), past, Enqueue(c), c);
    past' := Then(past, [Enqueue(c)]);
    env' := Step(s.Cfg(), s.Whole(env), Enqueue(c)).env;
    queued := s.TryEnqueue(env.calls[c].msg);
  }

  // ---------------------------------------------------------------- waiting for room

  /** A send on `tx` has to wait, and there is no grace period to end it. */
  predicate Stuck(cfg: Config, s: State, tx: ChanId) {
    !cfg.grace && tx in s.env.chans && !s.env.chans[tx].closed && !s.env.chans[tx].HasRoom()
  }

  /** Where a wait for room on `tx` ends, and what is left of the schedule: after one stretch, or,
      without a grace period, when the channel has room or closes, or nothing more happens. */
  function WaitEnd(cfg: Config, past: Past, tx: ChanId, sched: seq<seq<Event>>): (Past, seq<seq<Event>>)
    decreases |sched|
  {
    if sched == [] then (past, [])
    else
      var p := Then(past, sched[0]);
      if Stuck(cfg, After(cfg, p), tx) && sched[1..] != [] then WaitEnd(cfg, p, tx, sched[1..]) else (p, sched[1..])
  }

  method AwaitRoom(s: SessionState, env0: Env, ghost past0: Past, c: CallId, tx: ChanId, sched: seq<seq<Event>>)
    returns (env: Env, ghost past: Past, rest: seq<seq<Event>>)
    requires Tracks(s, env0, past0)
    requires c in env0.calls && env0.calls[c].pc == Sending(tx) && AllLeaveAlone(sched, c)
    modifies s, s.disk
    ensures Tracks(s, env, past) && InOrder(s.Books(), old(s.Books())) && Extends(s.Cfg(), past, past0, c)
    ensures c in env.calls && env.calls[c] == env0.calls[c] && tx in env.chans && AllLeaveAlone(rest, c)
    ensures (past, rest) == WaitEnd(s.Cfg(), past0, tx, sched)
    ensures env.chans[tx].closed || env.chans[tx].HasRoom() || s.slowGrace || rest == []
    ensures old(s.epoch) <= s.epoch && s.epoch + AttachesLeft(rest) <= old(s.epoch) + AttachesLeft(sched)
    ensures sched == [] ==> env == env0 && s.View() == old(s.View()) && s.pkid == old(s.pkid)
  {
    env, past, rest := Wait(s, env0, past0, sched, c);
    CallFacts(s.Cfg(), past, c);
    while !env.chans[tx].closed && !env.chans[tx].HasRoom() && !s.slowGrace && rest != []
      invariant Tracks(s, env, past) && InOrder(s.Books(), old(s.Books())) && Extends(s.Cfg(), past, past0, c)
      invariant c in env.calls && env.calls[c] == env0.calls[c] && tx in env.chans && AllLeaveAlone(rest, c)
      invariant WaitEnd(s.Cfg(), past0, tx, sched) ==
        if Stuck(s.Cfg(), s.Whole(env), tx) && rest != [] then WaitEnd(s.Cfg(), past, tx, rest) else (past, rest)
      invariant old(s.epoch) <= s.epoch && s.epoch + AttachesLeft(rest) <= old(s.epoch) + AttachesLeft(sched)
      invariant sched == [] ==> rest == [] && env == env0 && s.View() == old(s.View()) && s.pkid == old(s.pkid)
      decreases |rest|
    {
      ghost var before := past;
      env, past, rest := Wait(s, env, past, rest, c);
      ExtendsTransitive(s.Cfg(), past, before, past0, c);
      CallFacts(s.Cfg(), past, c);
    }
  }

  // ---------------------------------------------------------------- a live attempt

  /** The session after a send on `tx` failed, if nobody else acted: evicted if it gave up, and
      without a sink either way. */
  function Gone(i: Inner, tx: ChanId, now: Time, closed: bool): Inner {
    ClearInner(if closed then i else EvictInner(i, tx, now), tx, now)
  }

  method EvictAfterWait(s: SessionState, env0: Env, ghost past0: Past, c: CallId, tx: ChanId, sched: seq<seq<Event>>)
    returns (env: Env, ghost past: Past, rest: seq<seq<Event>>)
    requires Tracks(s, env0, past0)
    requires c in env0.calls && env0.calls[c].pc == Evicting(tx) && AllLeaveAlone(sched, c)
    modifies s, s.disk
    ensures Tracks(s, env, past) && InOrder(s.Books(), old(s.Books())) && Extends(s.Cfg(), past, past0, c)
    ensures c in env.calls && env.calls[c] == env0.calls[c].(pc := Clearing(tx)) && AllLeaveAlone(rest, c)
    ensures old(s.epoch) <= s.epoch && s.epoch + AttachesLeft(rest) <= old(s.epoch) + AttachesLeft(sched)
    ensures sched == [] ==>
      rest == [] && env.now == env0.now && s.View() == EvictInner(old(s.View()), tx, env0.now) && s.pkid == old(s.pkid)
  {
    env, past, rest := Wait(s, env0, past0, sched, c);
    ghost var p := past;
    env, past := Evicted(s, env, past, c, tx);
    ExtendsTransitive(s.Cfg(), past, p, past0, c);
  }

  method ClearAfterWait(s: SessionState, env0: Env, ghost past0: Past, c: CallId, tx: ChanId, sched: seq<seq<Event>>)
    returns (env: Env, ghost past: Past, rest: seq<seq<Event>>)
    requires Tracks(s, env0, past0)
    requires c in env0.calls && env0.calls[c].pc == Clearing(tx) && AllLeaveAlone(sched, c)
    modifies s, s.disk
    ensures Tracks(s, env, past) && InOrder(s.Books(), old(s.Books())) && Extends(s.Cfg(), past, past0, c)
    ensures c in env.calls && env.calls[c] == env0.calls[c].(pc := Head) && AllLeaveAlone(rest, c)
    ensures old(s.epoch) <= s.epoch && s.epoch + AttachesLeft(rest) <= old(s.epoch) + AttachesLeft(sched)
    ensures sched == [] ==>
      rest == [] && env.now == env0.now && s.View() == ClearInner(old(s.View()), tx, env0.now) && s.pkid == old(s.pkid)
  {
    env, past, rest := Wait(s, env0, past0, sched, c);
    ghost var p := past;
    env, past := Cleared(s, env, past, c, tx);
    ExtendsTransitive(s.Cfg(), past, p, past0, c);
  }

  /** The clean-up after a failed send: evict if it timed out, then clear the sink unless a
      newer connection owns it. */
  method Fail(s: SessionState, env0: Env, ghost past0: Past, c: CallId, tx: ChanId, sched: seq<seq<Event>>)
    returns (env: Env, ghost past: Past, rest: seq<seq<Event>>)
    requires Tracks(s, env0, past0)
    requires c in env0.calls && env0.calls[c].pc == Sending(tx) && AllLeaveAlone(sched, c)
    requires tx in env0.chans && (env0.chans[tx].closed || (s.slowGrace && !env0.chans[tx].HasRoom()))
    modifies s, s.disk
    ensures Tracks(s, env, past) && InOrder(s.Books(), old(s.Books())) && Extends(s.Cfg(), past, past0, c)
    ensures c in env.calls && env.calls[c] == env0.calls[c].(pc := Head) && AllLeaveAlone(rest, c)
    ensures old(s.epoch) <= s.epoch && s.epoch + AttachesLeft(rest) <= old(s.epoch) + AttachesLeft(sched)
    ensures sched == [] ==>
      && rest == [] && env.now == env0.now && s.pkid == old(s.pkid)
      && s.View() == Gone(old(s.View()), tx, env0.now, env0.chans[tx].closed)
  {
    rest := sched;
    env, past := SendFails(s, env0, past0, c, tx);
    if !env0.chans[tx].closed {
      ghost var p := past;
      env, past, rest := EvictAfterWait(s, env, past, c, tx, rest);
      ExtendsTransitive(s.Cfg(), past, p, past0, c);
    }
    ghost var p := past;
    env, past, rest := ClearAfterWait(s, env, past, c, tx, rest);
    ExtendsTransitive(s.Cfg(), past, p, past0, c);
  }

  /** One live attempt, from the channel read at the loop's top. If the channel is open and has
      room when the wait ends, the packet is sent, and that is all the attempt does; if it is
      open and full, the wait goes on for ever without a grace period; otherwise the attempt
      ends back at the top with the channel cleared. */
  method Attempt(s: SessionState, env0: Env, ghost past0: Past, c: CallId, tx: ChanId, sched: seq<seq<Event>>)
    returns (out: Option<Delivery>, env: Env, ghost past: Past, rest: seq<seq<Event>>)
    requires Tracks(s, env0, past0)
    requires c in env0.calls && env0.calls[c].pc == Sending(tx) && AllLeaveAlone(sched, c)
    modifies s, s.disk
    ensures Tracks(s, env, past) && InOrder(s.Books(), old(s.Books())) && Extends(s.Cfg(), past, past0, c)
    ensures c in env.calls && env.calls[c] == env0.calls[c].(pc := env.calls[c].pc)
    ensures match out
      case None => env.calls[c].pc == Head
      case Some(Sent) => env.calls[c].pc == Pc.Sent(tx)
      case Some(Blocked) => FullAt(s.Whole(env), c) && !s.slowGrace && rest == []
      case _ => false
    ensures var (p, left) := WaitEnd(s.Cfg(), past0, tx, sched);
      var chans := After(s.Cfg(), p).env.chans;
      && tx in chans
      && (!chans[tx].closed && chans[tx].HasRoom() ==>
            out == Some(Delivery.Sent) && past == Then(p, [SendOk(c)]) && rest == left)
      && (!chans[tx].closed && !chans[tx].HasRoom() && !s.slowGrace ==> out == Some(Blocked) && past == p)
      && (chans[tx].closed || (!chans[tx].HasRoom() && s.slowGrace) ==> out == None)
    ensures AllLeaveAlone(rest, c)
    ensures old(s.epoch) <= s.epoch && s.epoch + AttachesLeft(rest) <= old(s.epoch) + AttachesLeft(sched)
    ensures sched == [] ==>
      && rest == [] && env.now == env0.now && s.pkid == old(s.pkid) && tx in env0.chans
      && s.View() == if out.Some? then old(s.View()) else Gone(old(s.View()), tx, env0.now, env0.chans[tx].closed)
  {
    env, past, rest := AwaitRoom(s, env0, past0, c, tx, sched);
    if !env.chans[tx].closed && env.chans[tx].HasRoom() {
      ghost var before := past;
      env, past := SendSucceeds(s, env, past, c, tx);
      ExtendsTransitive(s.Cfg(), past, before, past0, c);
      return Some(Delivery.Sent), env, past, rest;
    }
    if !env.chans[tx].closed && !s.slowGrace {
      return Some(Blocked), env, past, rest;
    }
    ghost var before := past;
    env, past, rest := Fail(s, env, past, c, tx, rest);
    ExtendsTransitive(s.Cfg(), past, before, past0, c);
    out := None;
  }

  /** The offline path: enqueue, or go back to the top because a connection is back. */
  method OfflinePath(s: SessionState, env0: Env, ghost past0: Past, c: CallId, sched: seq<seq<Event>>)
    returns (queued: bool, env: Env, ghost past: Past, rest: seq<seq<Event>>)
    requires Tracks(s, env0, past0)
    requires c in env0.calls && env0.calls[c].pc.Offline? && AllLeaveAlone(sched, c)
    modifies s, s.disk
    ensures Tracks(s, env, past) && InOrder(s.Books(), old(s.Books())) && Extends(s.Cfg(), past, past0, c)
    ensures c in env.calls && env.calls[c] == env0.calls[c].(pc := env.calls[c].pc, retries := env.calls[c].retries)
    ensures env.calls[c].pc == if queued then Pc.Queued else Head
    ensures AllLeaveAlone(rest, c)
    ensures old(s.epoch) <= s.epoch && s.epoch + AttachesLeft(rest) <= old(s.epoch) + AttachesLeft(sched)
    ensures sched == [] ==>
      && rest == [] && env.now == env0.now && s.pkid == old(s.pkid) && queued == old(s.sink).None?
      && s.View() == if queued then EnqueueInner(old(s.View()), env0.calls[c].msg, s.maxQueue) else old(s.View())
  {
    env, past, rest := Wait(s, env0, past0, sched, c);
    ghost var p := past;
    queued, env, past := Enqueued(s, env, past, c);
    ExtendsTransitive(s.Cfg(), past, p, past0, c);
  }

  // ---------------------------------------------------------------- deliver

  method Begin(s: SessionState, env: Env, ghost past: Past, c: CallId, m: Msg, qos: QoS)
    returns (env': Env, ghost past': Past)
    requires Tracks(s, env, past) && c !in env.calls
    ensures Extends(s.Cfg(), past', past, c) && Tracks(s, env', past')
    ensures c in env'.calls && env'.calls[c] == Call(m, qos, Head, s.epoch, 0, 0, 0)
    ensures env'.chans == env.chans && env'.now == env.now
  {
    env', past' := Own(s, env, past, Start(c, m, qos), c);
  }

  /** Where a call that returned `out` stands. */
  predicate Ended(out: Delivery, pc: Pc) {
    match out
    case Sent => pc.Sent?
    case Queued => pc.Queued?
    case Dropped => pc.Dropped?
    case Blocked => pc.Sending?
  }

  /** The sink is a channel that is open, with or without room. */
  predicate Reachable(v: Env, sink: Option<ChanId>) {
    sink.Some? && sink.value in v.chans && !v.chans[sink.value].closed
  }

  predicate Free(v: Env, sink: Option<ChanId>) {
    Reachable(v, sink) && v.chans[sink.value].HasRoom()
  }

  /** What one turn of the loop does if nobody else acts. */
  predicate TurnAlone(s: SessionState, v0: Env, i0: Inner, m: Msg, qos: QoS, out: Option<Delivery>, pc: Pc)
    reads s
  {
    match i0.sink
    case None =>
      if qos == AtMostOnce || s.maxQueue == 0 then out == Some(Delivery.Dropped) && s.View() == i0
      else out == Some(Delivery.Queued) && s.View() == EnqueueInner(i0, m, s.maxQueue)
    case Some(tx) =>
      tx in v0.chans &&
      if Free(v0, i0.sink) then out == Some(Delivery.Sent) && pc == Pc.Sent(tx) && s.View() == i0
      else if Reachable(v0, i0.sink) && !s.slowGrace then out == Some(Blocked) && s.View() == i0
      else out == None && s.View() == Gone(i0, tx, v0.now, v0.chans[tx].closed)
  }

  method FindSink(s: SessionState, env0: Env, ghost past0: Past, c: CallId, sched: seq<seq<Event>>)
    returns (sink: Option<ChanId>, env: Env, ghost past: Past, rest: seq<seq<Event>>)
    requires Tracks(s, env0, past0) && c in env0.calls && env0.calls[c].pc == Head && AllLeaveAlone(sched, c)
    modifies s, s.disk
    ensures Tracks(s, env, past) && InOrder(s.Books(), old(s.Books())) && Extends(s.Cfg(), past, past0, c)
    ensures c in env.calls && env.calls[c].iters == env0.calls[c].iters + 1 && env.calls[c].since == env0.calls[c].since
    ensures env.calls[c].msg == env0.calls[c].msg && env.calls[c].qos == env0.calls[c].qos
    ensures match sink
      case Some(tx) => env.calls[c].pc == Sending(tx)
      case None =>
        if env0.calls[c].qos == AtMostOnce || s.maxQueue == 0 then env.calls[c].pc == Pc.Dropped
        else env.calls[c].pc.Offline?
    ensures AllLeaveAlone(rest, c)
    ensures old(s.epoch) <= s.epoch && s.epoch + AttachesLeft(rest) <= old(s.epoch) + AttachesLeft(sched)
    ensures sched == [] ==>
      && rest == [] && env.now == env0.now && env.chans == env0.chans
      && sink == old(s.sink) && s.View() == old(s.View())
      && s.pkid == if sink.Some? && env0.calls[c].qos != AtMostOnce then NextCounter(old(s.pkid)) else old(s.pkid)
  {
    env, past, rest := Wait(s, env0, past0, sched, c);
    ghost var p := past;
    sink, env, past := LookAtSink(s, env, past, c);
    ExtendsTransitive(s.Cfg(), past, p, past0, c);
  }

  /** Once round the loop. */
  method Iterate(s: SessionState, env0: Env, ghost past0: Past, c: CallId, sched: seq<seq<Event>>)
    returns (out: Option<Delivery>, env: Env, ghost past: Past, rest: seq<seq<Event>>)
    requires Tracks(s, env0, past0) && c in env0.calls && env0.calls[c].pc == Head && AllLeaveAlone(sched, c)
    modifies s, s.disk
    ensures Tracks(s, env, past) && InOrder(s.Books(), old(s.Books())) && Extends(s.Cfg(), past, past0, c)
    ensures c in env.calls && env.calls[c].iters == env0.calls[c].iters + 1 && env.calls[c].since == env0.calls[c].since
    ensures env.calls[c].msg == env0.calls[c].msg && env.calls[c].qos == env0.calls[c].qos
    ensures if out.Some? then Ended(out.value, env.calls[c].pc) else env.calls[c].pc == Head
    ensures out == Some(Blocked) ==> FullAt(s.Whole(env), c) && !s.slowGrace && rest == []
    ensures AllLeaveAlone(rest, c)
    ensures old(s.epoch) <= s.epoch && s.epoch + AttachesLeft(rest) <= old(s.epoch) + AttachesLeft(sched)
    ensures sched == [] ==>
      && rest == [] && env.now == env0.now
      && TurnAlone(s, env0, old(s.View()), env0.calls[c].msg, env0.calls[c].qos, out, env.calls[c].pc)
      && s.pkid ==
         if old(s.sink).Some? && env0.calls[c].qos != AtMostOnce then NextCounter(old(s.pkid)) else old(s.pkid)
  {
    var sink, qos := None, env0.calls[c].qos;
    sink, env, past, rest := FindSink(s, env0, past0, c, sched);
    ghost var p := past;
    if sink.Some? {
      out, env, past, rest := Attempt(s, env, past, c, sink.value, rest);
      ExtendsTransitive(s.Cfg(), past, p, past0, c);
    } else if qos == AtMostOnce || s.maxQueue == 0 {
      out := Some(Delivery.Dropped);
    } else {
      var queued;
      queued, env, past, rest := OfflinePath(s, env, past, c, rest);
      ExtendsTransitive(s.Cfg(), past, p, past0, c);
      out := if queued then Some(Delivery.Queued) else None;
    }
  }

  /** How far a call has come on which nobody acted: it is at its first turn, or its attempt on
      the channel failed. */
  predicate AloneSoFar(s: SessionState, v: Env, v0: Env, i0: Inner, iters: nat, qos: QoS, pkid0: nat)
    reads s
  {
    && v.now == v0.now
    && (if iters == 0 then v.chans == v0.chans && s.View() == i0 && s.pkid == pkid0
        else
          && i0.sink.Some? && i0.sink.value in v0.chans && !Free(v0, i0.sink)
          && (Reachable(v0, i0.sink) ==> s.slowGrace)
          && s.View() == Gone(i0, i0.sink.value, v0.now, v0.chans[i0.sink.value].closed)
          && s.pkid == if qos != AtMostOnce then NextCounter(pkid0) else pkid0)
  }

  /** What a call does on which nobody acts, in the session's own terms. */
  predicate DeliversAlone(s: SessionState, v0: Env, i0: Inner, m: Msg, qos: QoS, out: Delivery, pc: Pc)
    reads s
  {
    if Free(v0, i0.sink) then out.Sent? && pc == Pc.Sent(i0.sink.value) && s.View() == i0
    else if Reachable(v0, i0.sink) && !s.slowGrace then out.Blocked? && s.View() == i0
    else
      && s.sink == None && s.epoch == i0.epoch && s.kick == i0.kick
      && s.offlineSince == (if i0.sink.Some? then Some(v0.now) else i0.offlineSince)
      && s.kickReason == (if Reachable(v0, i0.sink) then Some(SlowConsumer) else i0.kickReason)
      && (if qos == AtMostOnce || s.maxQueue == 0 then out.Dropped? && s.queue == i0.queue && s.dropped == i0.dropped
          else
            && out.Queued?
            && s.queue == (if |i0.queue| < s.maxQueue then i0.queue else i0.queue[1..]) + [m]
            && s.dropped == if |i0.queue| < s.maxQueue then i0.dropped else i0.dropped + 1)
  }

  lemma LastTurn(s: SessionState, v: Env, v0: Env, i0: Inner, i1: Inner, iters: nat,
                 m: Msg, qos: QoS, out: Delivery, pc: Pc)
    requires i1.sink == None || iters == 0
    requires iters == 0 ==> i1 == i0 && v.chans == v0.chans && v.now == v0.now
    requires iters > 0 ==>
      && i0.sink.Some? && i0.sink.value in v0.chans && !Free(v0, i0.sink) && (Reachable(v0, i0.sink) ==> s.slowGrace)
      && i1 == Gone(i0, i0.sink.value, v0.now, v0.chans[i0.sink.value].closed)
    requires TurnAlone(s, v, i1, m, qos, Some(out), pc)
    ensures DeliversAlone(s, v0, i0, m, qos, out, pc)
  {
  }

  /** A turn of the loop, seen from where the call began. */
  method TurnSince(s: SessionState, env1: Env, ghost past1: Past, c: CallId, sched: seq<seq<Event>>,
                   ghost env0: Env, ghost i0: Inner, ghost pkid0: nat)
    returns (out: Option<Delivery>, env: Env, ghost past: Past, rest: seq<seq<Event>>)
    requires Tracks(s, env1, past1) && c in env1.calls && env1.calls[c].pc == Head && AllLeaveAlone(sched, c)
    modifies s, s.disk
    ensures Tracks(s, env, past) && InOrder(s.Books(), old(s.Books())) && Extends(s.Cfg(), past, past1, c)
    ensures c in env.calls && env.calls[c].iters == env1.calls[c].iters + 1 && env.calls[c].since == env1.calls[c].since
    ensures env.calls[c].msg == env1.calls[c].msg && env.calls[c].qos == env1.calls[c].qos
    ensures if out.Some? then Ended(out.value, env.calls[c].pc) else env.calls[c].pc == Head
    ensures out == Some(Blocked) ==> FullAt(s.Whole(env), c) && !s.slowGrace
    ensures AllLeaveAlone(rest, c)
    ensures old(s.epoch) <= s.epoch && s.epoch + AttachesLeft(rest) <= old(s.epoch) + AttachesLeft(sched)
    ensures sched == [] && old(AloneSoFar(s, env1, env0, i0, env1.calls[c].iters, env1.calls[c].qos, pkid0)) ==>
      && rest == []
      && (out.None? ==> AloneSoFar(s, env, env0, i0, env.calls[c].iters, env.calls[c].qos, pkid0))
      && (out.Some? ==>
            && DeliversAlone(s, env0, i0, env.calls[c].msg, env.calls[c].qos, out.value, env.calls[c].pc)
            && s.pkid == if i0.sink.Some? && env.calls[c].qos != AtMostOnce then NextCounter(pkid0) else pkid0)
  {
    ghost var i1, iters := s.View(), env1.calls[c].iters;
    ghost var alone := sched == [] && AloneSoFar(s, env1, env0, i0, iters, env1.calls[c].qos, pkid0);
    out, env, past, rest := Iterate(s, env1, past1, c, sched);
    if alone && out.Some? {
      LastTurn(s, env1, env0, i0, i1, iters, env.calls[c].msg, env.calls[c].qos, out.value, env.calls[c].pc);
    }
  }

  /** Deliver one message. Whatever the schedule does in between, the loop ends; its run is a
      run of the transition system, so all that is proved of those holds of it; in that run the
      call gives up on a channel only when that is open and full; and it went round at most
      twice per connection that attached meanwhile, plus two. If nobody else acts, the outcome is
      decided: sent to an open channel with room, without any other change; stuck on an open and
      full one without a grace period; otherwise the sink is gone, and the message is queued, or
      dropped at QoS 0 or without a queue. */
  method Deliver(s: SessionState, env0: Env, ghost past0: Past, c: CallId, m: Msg, qos: QoS, sched: seq<seq<Event>>)
    returns (out: Delivery, env: Env, ghost past: Past)
    requires Tracks(s, env0, past0) && c !in env0.calls && AllLeaveAlone(sched, c)
    modifies s, s.disk
    ensures Tracks(s, env, past) && InOrder(s.Books(), old(s.Books())) && Extends(s.Cfg(), past, past0, c)
    ensures c in env.calls && env.calls[c].msg == m && env.calls[c].qos == qos
    ensures Ended(out, env.calls[c].pc)
    ensures out.Blocked? ==> FullAt(s.Whole(env), c) && !s.slowGrace
    ensures old(s.epoch) <= s.epoch
    ensures env.calls[c].iters <= 2 * (s.epoch - old(s.epoch)) + 2
    ensures sched == [] ==>
      && DeliversAlone(s, env0, old(s.View()), m, qos, out, env.calls[c].pc)
      && s.pkid == if old(s.sink).Some? && qos != AtMostOnce then NextCounter(old(s.pkid)) else old(s.pkid)
  {
    var rest, done := sched, None;
    env, past := Begin(s, env0, past0, c, m, qos);
    while true
      invariant Tracks(s, env, past) && InOrder(s.Books(), old(s.Books())) && Extends(s.Cfg(), past, past0, c)
      invariant c in env.calls && env.calls[c].pc == Head && env.calls[c].since == old(s.epoch)
      invariant env.calls[c].msg == m && env.calls[c].qos == qos && AllLeaveAlone(rest, c)
      invariant old(s.epoch) <= s.epoch && s.epoch + AttachesLeft(rest) <= old(s.epoch) + AttachesLeft(sched)
      invariant sched == [] ==>
        rest == [] && AloneSoFar(s, env, env0, old(s.View()), env.calls[c].iters, qos, old(s.pkid))
      decreases 2 * AttachesLeft(sched) + 2 - env.calls[c].iters
    {
      CallFacts(s.Cfg(), past, c);
      ghost var before := past;
      done, env, past, rest := TurnSince(s, env, past, c, rest, env0, old(s.View()), old(s.pkid));
      ExtendsTransitive(s.Cfg(), past, before, past0, c);
      CallFacts(s.Cfg(), past, c);
      if done.Some? {
        return done.value, env, past;
      }
    }
  }
}
