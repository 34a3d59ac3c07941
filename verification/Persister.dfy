/** The debounced persister racing the writers of the retained store. Every event is one
    atomic operation; an event that is not possible leaves the state unchanged. */
module Persister {
  import opened Common
  import opened RetainedCodec
  import opened Retained

  type WriterId = nat

  /** The persister's loop: waiting for its tick, holding the flag it took, or holding the
      image of the snapshot it took. */
  datatype Pc = Idle | Taken | Writing(image: seq<byte>)

  /** `between` holds the writers that changed the map but have not set the flag yet. */
  datatype State = State(store: Store, dirty: bool, between: set<WriterId>, pc: Pc, file: Option<seq<byte>>)

  /** `value` is None for a removal; `items` is the order in which the map is iterated. */
  datatype Event =
    | Write(w: WriterId, topic: string, value: Option<Entry>)
    | SetDirty(w: WriterId)
    | TakeDirty
    | Snapshot(items: seq<Item>)
    | Save
    | Restart

  function Startup(file: Option<seq<byte>>): State {
    State(Restore(file), false, {}, Idle, file)
  }

  predicate Enabled(s: State, e: Event) {
    match e
    case Write(w, _, _) => w !in s.between
    case SetDirty(w) => w in s.between
    case TakeDirty => s.pc.Idle? && s.dirty
    case Snapshot(items) => s.pc.Taken? && Lists(items, s.store)
    case Save => s.pc.Writing?
    case Restart => true
  }

  function Step(s: State, e: Event): State {
    if !Enabled(s, e) then s
    else
      match e
      case Write(w, t, v) =>
        s.(store := Written(s.store, t, v), between := s.between + {w})
      case SetDirty(w) => s.(dirty := true, between := s.between - {w})
      case TakeDirty => s.(dirty := false, pc := Taken)
      case Snapshot(items) => s.(pc := Writing(SnapshotImage(items)))
      case Save => s.(file := Some(s.pc.image), pc := Idle)
      case Restart => Startup(s.file)
  }

  function Run(s: State, es: seq<Event>): State {
    if es == [] then s else Step(Run(s, es[..|es| - 1]), es[|es| - 1])
  }

  predicate Pending(s: State) {
    s.dirty || s.between != {}
  }

  /** Whatever is not on disk, or about to be, is announced by the flag or by a writer, or does
      not fit the format. */
  predicate NothingLost(s: State) {
    && (s.pc.Idle? && !Pending(s) ==> (Restore(s.file) == Floored(s.store) <==> Fits(s.store)))
    && (s.pc.Writing? && !Pending(s) ==> (Restore(Some(s.pc.image)) == Floored(s.store) <==> Fits(s.store)))
  }

  lemma StepLosesNothing(s: State, e: Event)
    requires NothingLost(s)
    ensures NothingLost(Step(s, e))
  {
    if Enabled(s, e) {
      if e.Snapshot? {
        SnapshotRoundTripIff(e.items, s.store);
      } else if e.Restart? {
        RestoreIsStorable(s.file);
      }
    }
  }

  /** In every state of every run, restarts included: if the file would not bring back the
      store, to the millisecond, then the flag is set, or a writer is about to set it, or the
      persister has yet to finish the write it took the flag for, or the store holds something
      that no snapshot can. With none of the first three, that last is the exact condition. */
  lemma {:induction false} NoUpdateLost(file: Option<seq<byte>>, es: seq<Event>)
    ensures NothingLost(Run(Startup(file), es))
    ensures var s := Run(Startup(file), es);
      !s.dirty && s.between == {} && s.pc.Idle? ==> (Restore(s.file) == Floored(s.store) <==> Fits(s.store))
  {
    if es == [] {
      RestoreIsStorable(file);
    } else {
      NoUpdateLost(file, es[..|es| - 1]);
      StepLosesNothing(Run(Startup(file), es[..|es| - 1]), es[|es| - 1]);
    }
  }

  /** Once the writers rest, one round of the persister brings the file up to date, exactly if
      the store fits the format. */
  lemma OneRoundSaves(file: Option<seq<byte>>, es: seq<Event>, items: seq<Item>)
    requires var s := Run(Startup(file), es); s.between == {} && s.pc.Idle? && Lists(items, s.store)
    ensures var s' := Step(Step(Step(Run(Startup(file), es), TakeDirty), Snapshot(items)), Save);
      !s'.dirty && s'.pc.Idle? && (Restore(s'.file) == Floored(s'.store) <==> Fits(s'.store))
  {
    NoUpdateLost(file, es);
    var s := Run(Startup(file), es);
    if s.dirty {
      SnapshotRoundTripIff(items, s.store);
    }
  }

  // ---------------------------------------------------------------- the loop on the store

  /** The object's map and flag are those of the state. */
  predicate Mirrors(r: RetainedStore, s: State)
    reads r
  {
    r.store == s.store && r.dirty == s.dirty
  }

  predicate WritersOnly(es: seq<Event>) {
    forall e :: e in es ==> e.Write? || e.SetDirty?
  }

  /** What the writers do in one turn of the loop: before the flag is taken, before the snapshot,
      before the file is written. */
  datatype Turn = Turn(first: seq<Event>, second: seq<Event>, third: seq<Event>)

  predicate ValidTurn(t: Turn) {
    WritersOnly(t.first) && WritersOnly(t.second) && WritersOnly(t.third)
  }

  lemma {:induction false} RunAppend(s: State, a: seq<Event>, b: seq<Event>)
    ensures Run(s, a + b) == Run(Run(s, a), b)
    decreases |b|
  {
    if b == [] {
      assert a + b == a;
    } else {
      RunAppend(s, a, b[..|b| - 1]);
      assert (a + b)[..|a + b| - 1] == a + b[..|b| - 1];
    }
  }

  lemma RunSnoc(s: State, es: seq<Event>, e: Event)
    ensures Run(s, es + [e]) == Step(Run(s, es), e)
  {
    assert (es + [e])[..|es|] == es;
  }

  lemma {:induction false} WritersLeavePc(s: State, es: seq<Event>)
    requires WritersOnly(es)
    ensures Run(s, es).pc == s.pc && Run(s, es).file == s.file
  {
    if es != [] {
      var pre, last := es[..|es| - 1], es[|es| - 1];
      assert last in es && forall e :: e in pre ==> e in es;
      WritersLeavePc(s, pre);
    }
  }

  /** Writers act on the object. */
  method Interfere(r: RetainedStore, s0: State, es: seq<Event>) returns (s: State)
    requires Mirrors(r, s0) && WritersOnly(es)
    modifies r`store, r`dirty
    ensures Mirrors(r, s) && s == Run(s0, es) && s.pc == s0.pc && s.file == s0.file
  {
    s := s0;
    var i := 0;
    while i < |es|
      invariant 0 <= i <= |es| && Mirrors(r, s) && s == Run(s0, es[..i])
    {
      var e := es[i];
      assert e in es && es[..i + 1] == es[..i] + [e];
      RunSnoc(s0, es[..i], e);
      if Enabled(s, e) {
        match e {
          case Write(_, topic, value) => r.Write(topic, value);
          case SetDirty(_) => r.MarkDirty();
          case _ =>
        }
      }
      s := Step(s, e);
      i := i + 1;
    }
    assert es[..|es|] == es;
    WritersLeavePc(s0, es);
  }

  /** One turn of the loop: take the flag and, if it was set, write a snapshot. */
  method OneTurn(r: RetainedStore, s0: State, t: Turn) returns (s: State, ghost es: seq<Event>)
    requires Mirrors(r, s0) && s0.pc.Idle? && ValidTurn(t)
    modifies r`store, r`dirty
    ensures Mirrors(r, s) && s == Run(s0, es) && s.pc.Idle?
  {
    s := Interfere(r, s0, t.first);
    es := t.first + [TakeDirty];
    RunSnoc(s0, t.first, TakeDirty);
    s := Step(s, TakeDirty);
    var was := r.TakeDirty();
    if was {
      ghost var tail;
      s, tail := WriteSnapshot(r, s, t.second, t.third);
      RunAppend(s0, es, tail);
      es := es + tail;
    }
  }

  method TakeSnapshot(r: RetainedStore, s0: State) returns (s: State, ghost items: seq<Item>)
    requires Mirrors(r, s0) && s0.pc.Taken?
    ensures Mirrors(r, s) && s == Step(s0, Snapshot(items)) && s.pc.Writing?
  {
    var image := r.SaveSnapshot();
    items :| Lists(items, r.store) && image == SnapshotImage(items);
    s := s0.(pc := Writing(image));
  }

  method WriteSnapshot(r: RetainedStore, s0: State, second: seq<Event>, third: seq<Event>)
    returns (s: State, ghost es: seq<Event>)
    requires Mirrors(r, s0) && s0.pc.Taken? && WritersOnly(second) && WritersOnly(third)
    modifies r`store, r`dirty
    ensures Mirrors(r, s) && s == Run(s0, es) && s.pc.Idle?
  {
    s := Interfere(r, s0, second);
    ghost var items;
    s, items := TakeSnapshot(r, s);
    RunSnoc(s0, second, Snapshot(items));
    es := second + [Snapshot(items)];
    RunAppend(s0, es, third);
    s := Interfere(r, s, third);
    es := es + third;
    RunSnoc(s0, es, Save);
    es := es + [Save];
    s := s.(file := Some(s.pc.image), pc := Idle);
  }

  /** The persister's loop, for as many turns as it gets, with writers acting wherever they can.
      It is a run of the transition system, so when it waits with no flag set and no writer
      about to set it, the file brings the store back exactly if the store fits the format. */
  method Persist(r: RetainedStore, file: Option<seq<byte>>, turns: seq<Turn>) returns (s: State, ghost es: seq<Event>)
    requires r.store == Restore(file) && !r.dirty && forall t :: t in turns ==> ValidTurn(t)
    modifies r`store, r`dirty
    ensures Mirrors(r, s) && s == Run(Startup(file), es) && s.pc.Idle?
    ensures !r.dirty && s.between == {} ==> (Restore(s.file) == Floored(r.store) <==> Fits(r.store))
  {
    s, es := Startup(file), [];
    var i := 0;
    while i < |turns|
      invariant 0 <= i <= |turns| && Mirrors(r, s) && s == Run(Startup(file), es) && s.pc.Idle?
    {
      assert turns[i] in turns;
      ghost var more;
      s, more := OneTurn(r, s, turns[i]);
      RunAppend(Startup(file), es, more);
      es := es + more;
      i := i + 1;
    }
    NoUpdateLost(file, es);
  }
}
