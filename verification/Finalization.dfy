/** Finalizers: registered ones whose objects a collection finds unreachable are revived and become
    pending; pending ones are run, or handed out, from the end of the list. */
module Finalization {

  const NULL: nat := 0

  /** A callback is known by its number. */
  datatype Kind = Finalized | Unordered(id: nat) | Drop(id: nat)

  datatype Finalizer = Finalizer(obj: nat, kind: Kind)

  predicate Carries(f: Finalizer, id: nat) {
    f.kind != Finalized && f.kind.id == id
  }

  /** How many finalizers of the list carry the callback. */
  function Count(fs: seq<Finalizer>, id: nat): nat {
    if fs == [] then 0 else Count(fs[..|fs| - 1], id) + if Carries(fs[|fs| - 1], id) then 1 else 0
  }

  function Reversed(fs: seq<Finalizer>): seq<Finalizer> {
    if fs == [] then [] else [fs[|fs| - 1]] + Reversed(fs[..|fs| - 1])
  }

  // ---------------------------------------------------------------- one pass over the registered list

  /** Where objects move to in this collection; all others stay. */
  type Forwarding = map<nat, nat>

  function Forwarded(fwd: Forwarding, obj: nat): nat {
    if obj in fwd then fwd[obj] else obj
  }

  /** What is reachable includes the new copies, and no object moves to null. */
  ghost predicate Consistent(fwd: Forwarding, reached: set<nat>) {
    && (forall x :: x in fwd ==> fwd[x] != NULL && Forwarded(fwd, fwd[x]) == fwd[x])
    && (forall x :: x in reached ==> Forwarded(fwd, x) in reached)
  }

  datatype Sweep = Sweep(kept: seq<Finalizer>, moved: seq<Finalizer>, reached: set<nat>)

  /** The pass of `process`, from front to back. */
  function Swept(fs: seq<Finalizer>, fwd: Forwarding, reached: set<nat>): Sweep {
    if fs == [] then Sweep([], [], reached)
    else
      var p, f := Swept(fs[..|fs| - 1], fwd, reached), fs[|fs| - 1];
      var g := f.(obj := Forwarded(fwd, f.obj));
      if f.obj == NULL then p
      else if f.obj in p.reached then p.(kept := p.kept + [g])
      else Sweep(p.kept, p.moved + [g], p.reached + {f.obj, g.obj})
  }

  /** What the collector knows. */
  class Tracer {
    const fwd: Forwarding
    var reached: set<nat>

    constructor (fwd: Forwarding, reached: set<nat>)
      ensures this.fwd == fwd && this.reached == reached
    {
      this.fwd, this.reached := fwd, reached;
    }

    /** MMTk's `trace_object`: the object, wherever it is now, is reachable. */
    method TraceObject(obj: nat) returns (newObj: nat)
      modifies this
      ensures newObj == Forwarded(fwd, obj) && reached == old(reached) + {obj, newObj}
    {
      newObj := Forwarded(fwd, obj);
      reached := reached + {obj, newObj};
    }
  }

  /** The two global lists, and what has become of the finalizers taken off the second one. */
  class FinalizerProcessing {
    var registered: seq<Finalizer>
    var pending: seq<Finalizer>
    ghost var consumed: seq<Finalizer>
    ghost var ran: seq<Finalizer>

    constructor ()
      ensures Model() == State([], [], [], [])
    {
      registered, pending, consumed, ran := [], [], [], [];
    }

    ghost function Model(): State
      reads this
    {
      State(registered, pending, consumed, ran)
    }

    method RegisterFinalizer(obj: nat, id: nat)
      modifies this
      ensures Model() == Next(old(Model()), Register(obj, id))
    {
      registered := registered + [Finalizer(obj, Unordered(id))];
    }

    /** `process`. */
    method Process(tracer: Tracer) returns (closureRequired: bool)
      modifies this, tracer
      ensures Model() == Next(old(Model()), Collect(tracer.fwd, old(tracer.reached)))
      ensures tracer.reached == Swept(old(registered), tracer.fwd, old(tracer.reached)).reached
      ensures closureRequired <==> Swept(old(registered), tracer.fwd, old(tracer.reached)).moved != []
    {
      closureRequired := false;
      var fs, retained := registered, [];
      for i := 0 to |fs|
        invariant consumed == old(consumed) && ran == old(ran) && registered == fs
        invariant var s := Swept(fs[..i], tracer.fwd, old(tracer.reached));
                  && retained == s.kept && pending == old(pending) + s.moved && tracer.reached == s.reached
                  && (closureRequired <==> s.moved != [])
      {
        assert fs[..i + 1][..i] == fs[..i];
        var finalizer := fs[i];
        if finalizer.obj != NULL {
          if finalizer.obj in tracer.reached {
            retained := retained + [finalizer.(obj := Forwarded(tracer.fwd, finalizer.obj))];
          } else {
            var newObj := tracer.TraceObject(finalizer.obj);
            pending := pending + [Finalizer(newObj, finalizer.kind)];
            closureRequired := true;
          }
        }
      }
      assert fs[..|fs|] == fs;
      registered := retained;
    }

    method GetFinalizedObject() returns (finalizer: Finalizer, found: bool)
      modifies this
      ensures Model() == Next(old(Model()), TakeOne)
      ensures found <==> old(pending) != []
      ensures found ==> finalizer == old(pending)[|old(pending)| - 1]
    {
      found := pending != [];
      finalizer := Finalizer(NULL, Finalized);
      if found {
        finalizer := pending[|pending| - 1];
        pending := pending[..|pending| - 1];
        consumed := consumed + [finalizer];
      }
    }

    /** One turn of the loop of `run_finalizers`; a panic in the callback is caught. */
    method RunOneFinalizer() returns (found: bool)
      modifies this
      ensures Model() == Next(old(Model()), RunOne)
      ensures found <==> old(pending) != []
    {
      var finalizer;
      finalizer, found := GetFinalizedObject();
      if found {
        ran := ran + [finalizer];
      }
    }

    /** Anything else that can happen to the lists. */
    method Perform(e: Event)
      modifies this
      ensures Model() == Next(old(Model()), e)
    {
      match e {
        case Register(obj, id) => RegisterFinalizer(obj, id);
        case Collect(fwd, reached) =>
          var tracer := new Tracer(fwd, reached);
          var _ := Process(tracer);
        case TakeOne => var _, _ := GetFinalizedObject();
        case RunOne => var _ := RunOneFinalizer();
      }
    }

    method PerformAll(es: seq<Event>)
      modifies this
      ensures Model() == After(old(Model()), es)
    {
      for i := 0 to |es|
        invariant Model() == After(old(Model()), es[..i])
      {
        assert es[..i + 1][..i] == es[..i];
        Perform(es[i]);
      }
      assert es[..|es|] == es;
    }

    /** `run_finalizers`.  `during` is what callbacks and other threads do to the lists meanwhile: the
        events after each turn. */
    method RunFinalizers(during: seq<seq<Event>>) returns (count: nat)
      modifies this
      ensures Model() == After(old(Model()), Woven(during, count)) && pending == []
      ensures during == [] ==> count == |old(pending)| && ran == old(ran) + Reversed(old(pending))
    {
      hide After, Woven, Reversed, Swept;
      count := 0;
      WovenStart(Model(), during);
      while true
        invariant Model() == After(old(Model()), Woven(during, count))
        invariant during == [] ==> count + |pending| == |old(pending)|
        decreases if count < |during| then |during| - count else 0, |pending|
      {
        var found := RunOneFinalizer();
        if !found {
          break;
        }
        if count < |during| {
          PerformAll(during[count]);
        } else {
          AfterNone(Model());
        }
        WovenTurn(old(Model()), during, count);
        count := count + 1;
      }
      if during == [] { UndisturbedEnd(old(Model())); }
    }
  }

  function After(s: State, es: seq<Event>): State {
    if es == [] then s else Next(After(s, es[..|es| - 1]), es[|es| - 1])
  }

  /** The events of `n` turns, with what happens after each. */
  function Woven(during: seq<seq<Event>>, n: nat): seq<Event> {
    if n == 0 then [] else Woven(during, n - 1) + [RunOne] + if n - 1 < |during| then during[n - 1] else []
  }

  lemma {:induction false} AfterConcat(s: State, es: seq<Event>, fs: seq<Event>)
    ensures After(s, es + fs) == After(After(s, es), fs)
  {
    if fs == [] {
      assert es + fs == es;
    } else {
      AfterConcat(s, es, fs[..|fs| - 1]);
      assert (es + fs)[..|es + fs| - 1] == es + fs[..|fs| - 1];
    }
  }

  lemma AfterNone(s: State)
    ensures After(s, []) == s
  {
  }

  lemma WovenStart(s: State, during: seq<seq<Event>>)
    ensures After(s, Woven(during, 0)) == s
  {
  }

  /** Left alone, the turns take the pending finalizers from the end. */
  lemma {:induction false} UndisturbedRun(s: State, n: nat)
    requires n <= |s.pending|
    ensures var t := After(s, Woven([], n));
            t.pending == s.pending[..|s.pending| - n] && t.ran + Reversed(t.pending) == s.ran + Reversed(s.pending)
  {
    hide After, Woven, Reversed, Next;
    if n == 0 {
      WovenStart(s, []);
    } else {
      UndisturbedRun(s, n - 1);
      WovenTurn(s, [], n - 1);
      UndisturbedTurn(After(s, Woven([], n - 1)));
    }
  }

  lemma UndisturbedEnd(s: State)
    ensures var t := After(s, Woven([], |s.pending|)); t.pending == [] && t.ran == s.ran + Reversed(s.pending)
  {
    hide After, Woven;
    UndisturbedRun(s, |s.pending|);
    var t := After(s, Woven([], |s.pending|));
    assert t.ran + [] == t.ran;
  }

  lemma UndisturbedTurn(t: State)
    requires t.pending != []
    ensures var u := Next(t, RunOne);
            After(u, []) == u && u.pending == t.pending[..|t.pending| - 1]
              && u.ran + Reversed(u.pending) == t.ran + Reversed(t.pending)
  {
    var rest, last := t.pending[..|t.pending| - 1], t.pending[|t.pending| - 1];
    assert (t.ran + [last]) + Reversed(rest) == t.ran + ([last] + Reversed(rest));
  }

  lemma WovenTurn(s: State, during: seq<seq<Event>>, n: nat)
    ensures After(s, Woven(during, n + 1)) ==
            After(Next(After(s, Woven(during, n)), RunOne), if n < |during| then during[n] else [])
  {
    var more := if n < |during| then during[n] else [];
    AfterConcat(s, Woven(during, n) + [RunOne], more);
    assert (Woven(during, n) + [RunOne])[..|Woven(during, n)|] == Woven(during, n);
  }

  // ---------------------------------------------------------------- what one pass does

  /** The pass runs into no one it has not seen: what is reachable afterwards. */
  lemma {:induction false} SweptReached(fs: seq<Finalizer>, fwd: Forwarding, reached: set<nat>)
    ensures reached <= Swept(fs, fwd, reached).reached
    ensures forall i :: 0 <= i < |fs| && fs[i].obj != NULL ==> fs[i].obj in Swept(fs, fwd, reached).reached
    ensures Consistent(fwd, reached) ==> Consistent(fwd, Swept(fs, fwd, reached).reached)
  {
    if fs != [] {
      SweptReached(fs[..|fs| - 1], fwd, reached);
    }
  }

  /** `process` returns `true` exactly if some registered object was unreachable. */
  lemma {:induction false} TrueMeansUnreachable(fs: seq<Finalizer>, fwd: Forwarding, reached: set<nat>)
    ensures Swept(fs, fwd, reached).moved == [] <==>
            forall i :: 0 <= i < |fs| && fs[i].obj != NULL ==> fs[i].obj in reached
    ensures Swept(fs, fwd, reached).moved == [] ==> Swept(fs, fwd, reached).reached == reached
  {
    if fs != [] {
      var n := |fs| - 1;
      TrueMeansUnreachable(fs[..n], fwd, reached);
      assert forall i :: 0 <= i < n ==> fs[..n][i] == fs[i];
      if Swept(fs[..n], fwd, reached).moved == [] && fs[n].obj != NULL && fs[n].obj !in reached {
        assert Swept(fs, fwd, reached).moved != [];
      }
    }
  }

  /** The finalizers at `ks`, in that order, with their objects where they are now. */
  predicate AreAt(gs: seq<Finalizer>, fs: seq<Finalizer>, ks: seq<nat>, fwd: Forwarding) {
    && |gs| == |ks| && (forall i, j :: 0 <= i < j < |ks| ==> ks[i] < ks[j])
    && forall i :: 0 <= i < |ks| ==>
         ks[i] < |fs| && gs[i] == Finalizer(Forwarded(fwd, fs[ks[i]].obj), fs[ks[i]].kind)
  }

  lemma LaterFinalizers(gs: seq<Finalizer>, fs: seq<Finalizer>, ks: seq<nat>, fwd: Forwarding)
    requires |fs| > 0 && AreAt(gs, fs[..|fs| - 1], ks, fwd)
    ensures AreAt(gs, fs, ks, fwd)
    ensures AreAt(gs + [Finalizer(Forwarded(fwd, fs[|fs| - 1].obj), fs[|fs| - 1].kind)], fs, ks + [|fs| - 1], fwd)
  {
  }

  /** Every finalizer goes one of three ways, in order: it stays registered or becomes pending, with its
      callback and the address its object has now, or it is dropped because its object is null. */
  lemma {:induction false} EachGoesOneWay(fs: seq<Finalizer>, fwd: Forwarding, reached: set<nat>)
      returns (stay: seq<nat>, go: seq<nat>)
    ensures var s := Swept(fs, fwd, reached); AreAt(s.kept, fs, stay, fwd) && AreAt(s.moved, fs, go, fwd)
    ensures forall k :: k in stay ==> k !in go && k < |fs| && fs[k].obj != NULL
    ensures forall k :: k in go ==> k < |fs| && fs[k].obj != NULL && fs[k].obj !in reached
    ensures forall k :: 0 <= k < |fs| && fs[k].obj != NULL ==> k in stay || k in go
  {
    if fs == [] { return [], []; }
    var n := |fs| - 1;
    var p := Swept(fs[..n], fwd, reached);
    stay, go := EachGoesOneWay(fs[..n], fwd, reached);
    LaterFinalizers(p.kept, fs, stay, fwd);
    LaterFinalizers(p.moved, fs, go, fwd);
    SweptReached(fs[..n], fwd, reached);
    assert forall k :: 0 <= k < n ==> fs[..n][k] == fs[k];
    if fs[n].obj != NULL {
      if fs[n].obj in p.reached { stay := stay + [n]; } else { go := go + [n]; }
    }
  }

  /** Everything that stays registered is reachable, where it is now; a pass that moves something
      leaves fewer registered. */
  lemma {:induction false} KeptAreReachable(fs: seq<Finalizer>, fwd: Forwarding, reached: set<nat>)
    requires Consistent(fwd, reached)
    ensures var s := Swept(fs, fwd, reached);
            && (forall i :: 0 <= i < |s.kept| ==> s.kept[i].obj != NULL && s.kept[i].obj in s.reached)
            && |s.kept| + |s.moved| <= |fs|
  {
    if fs != [] {
      KeptAreReachable(fs[..|fs| - 1], fwd, reached);
      SweptReached(fs[..|fs| - 1], fwd, reached);
    }
  }

  /** With several finalizers on one unreachable object, only the first is moved: a registered
      finalizer is moved exactly if its object was unreachable and no earlier one is on the same object. */
  lemma {:induction false} FirstOfEachObject(fs: seq<Finalizer>, fwd: Forwarding, reached: set<nat>, i: nat)
    requires i < |fs| && fs[i].obj != NULL
    requires forall j :: 0 <= j < |fs| && Forwarded(fwd, fs[j].obj) == fs[i].obj ==> fs[j].obj == fs[i].obj
    ensures var before, after := Swept(fs[..i], fwd, reached), Swept(fs[..i + 1], fwd, reached);
            && (|after.moved| > |before.moved| <==>
                fs[i].obj !in reached && forall j :: 0 <= j < i ==> fs[j].obj != fs[i].obj)
            && (|after.moved| > |before.moved| ==>
                after.moved == before.moved + [fs[i].(obj := Forwarded(fwd, fs[i].obj))])
  {
    assert fs[..i + 1][..i] == fs[..i];
    ReachedInPass(fs[..i], fwd, reached, fs[i].obj);
  }

  lemma {:induction false} ReachedInPass(fs: seq<Finalizer>, fwd: Forwarding, reached: set<nat>, x: nat)
    requires x != NULL && forall j :: 0 <= j < |fs| && Forwarded(fwd, fs[j].obj) == x ==> fs[j].obj == x
    ensures x in Swept(fs, fwd, reached).reached <==> x in reached || exists j :: 0 <= j < |fs| && fs[j].obj == x
  {
    if fs != [] {
      var n := |fs| - 1;
      ReachedInPass(fs[..n], fwd, reached, x);
      assert forall j :: 0 <= j < n ==> fs[..n][j] == fs[j];
    }
  }

  /** Passes that return `true` cannot go on for longer than there are finalizers: with the closure
      growing in between, some pass returns `false`, and then nothing registered is unreachable. */
  lemma {:induction false} TruePassesAreBounded(lists: seq<seq<Finalizer>>, fwd: Forwarding, reached: seq<set<nat>>)
    requires |lists| == |reached| + 1
    requires forall k :: 0 <= k < |reached| ==> Consistent(fwd, reached[k])
    requires forall k :: 0 <= k < |reached| ==> lists[k + 1] == Swept(lists[k], fwd, reached[k]).kept
    requires forall k :: 0 <= k < |reached| ==> Swept(lists[k], fwd, reached[k]).moved != []
    ensures |reached| + |lists[|reached|]| <= |lists[0]|
  {
    if reached != [] {
      var n := |reached| - 1;
      TruePassesAreBounded(lists[..n + 1], fwd, reached[..n]);
      KeptAreReachable(lists[n], fwd, reached[n]);
      assert lists[n + 1] == Swept(lists[n], fwd, reached[n]).kept;
    }
  }

  // ---------------------------------------------------------------- conservation

  lemma CountEmpty(id: nat)
    ensures Count([], id) == 0
  {
  }

  lemma CountAppend(fs: seq<Finalizer>, f: Finalizer, id: nat)
    ensures Count(fs + [f], id) == Count(fs, id) + if Carries(f, id) then 1 else 0
  {
    assert (fs + [f])[..|fs|] == fs;
  }

  lemma {:induction false} CountConcat(fs: seq<Finalizer>, gs: seq<Finalizer>, id: nat)
    ensures Count(fs + gs, id) == Count(fs, id) + Count(gs, id)
  {
    if gs == [] {
      assert fs + gs == fs;
    } else {
      CountConcat(fs, gs[..|gs| - 1], id);
      assert fs + gs == (fs + gs[..|gs| - 1]) + [gs[|gs| - 1]];
      CountAppend(fs + gs[..|gs| - 1], gs[|gs| - 1], id);
    }
  }

  /** No finalizer of this callback is on null. */
  ghost predicate OnObjects(fs: seq<Finalizer>, id: nat) {
    forall i :: 0 <= i < |fs| && Carries(fs[i], id) ==> fs[i].obj != NULL
  }

  /** A pass keeps each callback on an object, either registered or newly pending. */
  lemma {:induction false} SweepConserves(fs: seq<Finalizer>, fwd: Forwarding, reached: set<nat>, id: nat)
    requires OnObjects(fs, id) && Consistent(fwd, reached)
    ensures var s := Swept(fs, fwd, reached);
            Count(s.kept, id) + Count(s.moved, id) == Count(fs, id)
  {
    hide Count;
    if fs == [] {
      CountEmpty(id);
    } else {
      var rest, f := fs[..|fs| - 1], fs[|fs| - 1];
      assert rest + [f] == fs;
      CountAppend(rest, f, id);
      assert forall i :: 0 <= i < |rest| ==> rest[i] == fs[i];
      SweepConserves(rest, fwd, reached, id);
      var p, g := Swept(rest, fwd, reached), f.(obj := Forwarded(fwd, f.obj));
      CountAppend(p.kept, g, id);
      CountAppend(p.moved, g, id);
      assert Carries(g, id) == Carries(f, id) && (Carries(f, id) ==> f.obj != NULL);
    }
  }

  // ---------------------------------------------------------------- runs

  datatype State = State(registered: seq<Finalizer>, pending: seq<Finalizer>, consumed: seq<Finalizer>,
                         ran: seq<Finalizer>)

  datatype Event = Register(obj: nat, id: nat) | Collect(fwd: Forwarding, reached: set<nat>) | TakeOne | RunOne

  function Next(s: State, e: Event): State {
    match e
    case Register(obj, id) => s.(registered := s.registered + [Finalizer(obj, Unordered(id))])
    case Collect(fwd, reached) =>
      var w := Swept(s.registered, fwd, reached);
      s.(registered := w.kept, pending := s.pending + w.moved)
    case TakeOne =>
      if s.pending == [] then s
      else s.(pending := s.pending[..|s.pending| - 1], consumed := s.consumed + [s.pending[|s.pending| - 1]])
    case RunOne =>
      if s.pending == [] then s
      else
        var f := s.pending[|s.pending| - 1];
        s.(pending := s.pending[..|s.pending| - 1], consumed := s.consumed + [f], ran := s.ran + [f])
  }

  /** The places a callback can be. */
  function Places(s: State, id: nat): nat {
    Count(s.registered, id) + Count(s.pending, id) + Count(s.consumed, id)
  }

  ghost predicate Fits(e: Event) {
    e.Collect? ==> Consistent(e.fwd, e.reached)
  }

  predicate Registers(e: Event, id: nat) {
    e.Register? && e.id == id
  }

  lemma NextConserves(s: State, e: Event, id: nat)
    requires Fits(e) && OnObjects(s.registered, id) && (Registers(e, id) ==> e.obj != NULL)
    requires Count(s.ran, id) <= Count(s.consumed, id)
    ensures var t := Next(s, e);
            && Places(t, id) == Places(s, id) + (if Registers(e, id) then 1 else 0)
            && OnObjects(t.registered, id) && Count(t.ran, id) <= Count(t.consumed, id)
  {
    match e
    case Register(obj, i) => CountAppend(s.registered, Finalizer(obj, Unordered(i)), id);
    case Collect(fwd, reached) =>
      SweepConserves(s.registered, fwd, reached, id);
      KeptAreReachable(s.registered, fwd, reached);
      CountConcat(s.pending, Swept(s.registered, fwd, reached).moved, id);
    case TakeOne =>
      if s.pending != [] { CountAppend(s.consumed, s.pending[|s.pending| - 1], id); }
    case RunOne =>
      if s.pending != [] {
        CountAppend(s.consumed, s.pending[|s.pending| - 1], id);
        CountAppend(s.ran, s.pending[|s.pending| - 1], id);
      }
  }

  ghost predicate IsRun(ss: seq<State>, es: seq<Event>) {
    && |ss| == |es| + 1 && ss[0] == State([], [], [], [])
    && forall k :: 0 <= k < |es| ==> Fits(es[k]) && ss[k + 1] == Next(ss[k], es[k])
  }

  /** How often the callback is registered in the first `n` events. */
  function Registrations(es: seq<Event>, id: nat, n: nat): nat
    requires n <= |es|
  {
    if n == 0 then 0 else Registrations(es, id, n - 1) + if Registers(es[n - 1], id) then 1 else 0
  }

  /** Over every run a callback registered on an object is in exactly as many places as it was
      registered: registered, pending or consumed.  Registered once, it is in one place and runs at
      most once. */
  lemma {:induction false} CallbacksAreConserved(ss: seq<State>, es: seq<Event>, id: nat, n: nat)
    requires IsRun(ss, es) && n <= |es|
    requires forall k :: 0 <= k < |es| && Registers(es[k], id) ==> es[k].obj != NULL
    ensures Places(ss[n], id) == Registrations(es, id, n)
    ensures OnObjects(ss[n].registered, id) && Count(ss[n].ran, id) <= Count(ss[n].consumed, id)
  {
    if n > 0 {
      CallbacksAreConserved(ss, es, id, n - 1);
      NextConserves(ss[n - 1], es[n - 1], id);
    }
  }
}
