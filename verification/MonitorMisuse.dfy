/** Two runs of the monitor in which a guard is dropped inside an unlocked scope that began after the
    guard was taken: one in which the mutex is never released, and one in which two threads are
    inside at once. */
module MonitorMisuse {
  import opened Options
  import opened ReentrantMonitor

  // ---------------------------------------------------------------- paths

  ghost predicate Path(ms: seq<Monitor>, ws: seq<nat>) {
    |ms| == |ws| + 1 && forall i :: 0 <= i < |ws| ==> Step(ms[i], ms[i + 1], ws[i])
  }

  ghost predicate Joins(a: Monitor, m: Monitor, ms: seq<Monitor>, ws: seq<nat>) {
    Path(ms, ws) && ms[0] == a && ms[|ws|] == m
  }

  /** Steps lead from `a` to `m`. */
  ghost predicate Reaches(a: Monitor, m: Monitor) {
    exists ms, ws :: Joins(a, m, ms, ws)
  }

  lemma Here(a: Monitor)
    ensures Reaches(a, a)
  {
    assert Joins(a, a, [a], []);
  }

  /** The monitor after thread `t` has changed the words and itself. */
  function To(m: Monitor, t: nat, w: Words, h: Th): Monitor
    requires t < |m.th|
  {
    Monitor(w, m.th[t := h])
  }

  lemma Then(a: Monitor, m: Monitor, t: nat, w: Words, h: Th, w': Words, h': Th)
    requires t < |m.th| && Reaches(a, To(m, t, w, h)) && Edge(w, t, h, w', h')
    ensures Reaches(a, To(m, t, w', h'))
  {
    hide Edge;
    var ms, ws :| Joins(a, To(m, t, w, h), ms, ws);
    var m' := To(m, t, w', h');
    assert m'.th == To(m, t, w, h).th[t := h'];
    var ms', ws' := ms + [m'], ws + [t];
    forall i | 0 <= i < |ws'| ensures Step(ms'[i], ms'[i + 1], ws'[i]) {
      if i < |ws| { assert Step(ms[i], ms[i + 1], ws[i]); }
    }
    assert Joins(a, m', ms', ws');
  }

  lemma Begin(a: Monitor, m: Monitor, t: nat)
    requires t < |m.th| && Reaches(a, m)
    ensures Reaches(a, To(m, t, m.w, m.th[t]))
  {
    assert m.th[t := m.th[t]] == m.th;
  }

  // ---------------------------------------------------------------- operations run through

  lemma Locked(a: Monitor, m: Monitor, t: nat)
    requires Reaches(a, m) && t < |m.th| && m.th[t].pc == Out && m.th[t].live + 1 < USIZE
    requires m.w.mutex == None && m.w.holder != Some(t)
    ensures Reaches(a, To(m, t, Words(Some(t), Some(t), Inc(m.w.rec)), m.th[t].(live := m.th[t].live + 1)))
  {
    hide Reaches;
    var w, h := m.w, m.th[t];
    var w1 := w.(mutex := Some(t));
    var w2 := w1.(holder := Some(t));
    Begin(a, m, t);
    Then(a, m, t, w, h, w, h.(pc := LkLoad));
    Then(a, m, t, w, h.(pc := LkLoad), w, h.(pc := LkMutex(false)));
    Then(a, m, t, w, h.(pc := LkMutex(false)), w1, h.(pc := LkHolder));
    Then(a, m, t, w1, h.(pc := LkHolder), w2, h.(pc := LkCount));
    Then(a, m, t, w2, h.(pc := LkCount), w2.(rec := Inc(w.rec)), h.(live := h.live + 1));
  }

  lemma LockedAgain(a: Monitor, m: Monitor, t: nat)
    requires Reaches(a, m) && t < |m.th| && m.th[t].pc == Out && m.th[t].live + 1 < USIZE && m.w.holder == Some(t)
    ensures Reaches(a, To(m, t, m.w.(rec := Inc(m.w.rec)), m.th[t].(live := m.th[t].live + 1)))
  {
    hide Reaches;
    var w, h := m.w, m.th[t];
    Begin(a, m, t);
    Then(a, m, t, w, h, w, h.(pc := LkLoad));
    Then(a, m, t, w, h.(pc := LkLoad), w, h.(pc := LkCount));
    Then(a, m, t, w, h.(pc := LkCount), w.(rec := Inc(w.rec)), h.(live := h.live + 1));
  }

  lemma ScopeEntered(a: Monitor, m: Monitor, t: nat)
    requires Reaches(a, m) && t < |m.th| && m.th[t] == Th(Out, m.th[t].live, [], []) && m.th[t].live > 0
    ensures Reaches(a, To(m, t, Words(None, None, 0), Th(Out, 0, [m.th[t].live], [m.w.rec])))
  {
    hide Reaches;
    var w, h, n := m.w, m.th[t], m.w.rec;
    var w1 := w.(rec := 0);
    var w2 := w1.(holder := None);
    assert h.held + [h.live] == [h.live] && h.saved + [n] == [n];
    Begin(a, m, t);
    Then(a, m, t, w, h, w, h.(pc := UnLoad));
    Then(a, m, t, w, h.(pc := UnLoad), w, h.(pc := UnCount(n)));
    Then(a, m, t, w, h.(pc := UnCount(n)), w1, h.(pc := UnHolder(n)));
    Then(a, m, t, w1, h.(pc := UnHolder(n)), w2, h.(pc := UnMutex(n)));
    Then(a, m, t, w2, h.(pc := UnMutex(n)), w2.(mutex := None), Th(Out, 0, [h.live], [n]));
  }

  lemma ScopeLeft(a: Monitor, m: Monitor, t: nat, held: nat, saved: nat)
    requires Reaches(a, m) && t < |m.th| && m.th[t] == Th(Out, 0, [held], [saved]) && m.w.mutex == None
    ensures Reaches(a, To(m, t, Words(Some(t), Some(t), saved), Th(Out, held, [], [])))
  {
    hide Reaches;
    var w, h := m.w, m.th[t];
    var w1 := w.(mutex := Some(t));
    var w2 := w1.(rec := saved);
    Begin(a, m, t);
    Then(a, m, t, w, h, w, h.(pc := RlMutex));
    Then(a, m, t, w, h.(pc := RlMutex), w1, h.(pc := RlCount));
    Then(a, m, t, w1, h.(pc := RlCount), w2, h.(pc := RlHolder));
    Then(a, m, t, w2, h.(pc := RlHolder), w2.(holder := Some(t)), Th(Out, held, [], []));
  }

  /** The drop of a guard from before the only scope, when it does not bring the count to zero. */
  lemma SuspendedDropped(a: Monitor, m: Monitor, t: nat, held: nat)
    requires Reaches(a, m) && t < |m.th| && m.th[t].pc == Out && m.th[t].held == [held] && held > 1 && m.w.rec != 1
    ensures Reaches(a, To(m, t, m.w.(rec := Dec(m.w.rec)), m.th[t].(held := [held - 1])))
  {
    hide Reaches;
    var w, h := m.w, m.th[t];
    SumOfOne(held);
    Begin(a, m, t);
    Then(a, m, t, w, h, w, h.(pc := SdCount(0)));
    Then(a, m, t, w, h.(pc := SdCount(0)), w.(rec := Dec(w.rec)), h.(held := [held - 1]));
  }

  /** The same, when it does: holder and mutex go. */
  lemma SuspendedDroppedLast(a: Monitor, m: Monitor, t: nat, held: nat)
    requires Reaches(a, m) && t < |m.th| && m.th[t].pc == Out && m.th[t].held == [held] && held > 1 && m.w.rec == 1
    ensures Reaches(a, To(m, t, Words(None, None, 0), m.th[t].(held := [held - 1])))
  {
    hide Reaches;
    var w, h := m.w, m.th[t];
    var h1 := h.(held := [held - 1]);
    SumOfOne(held);
    Begin(a, m, t);
    Then(a, m, t, w, h, w, h.(pc := SdCount(0)));
    Then(a, m, t, w, h.(pc := SdCount(0)), w.(rec := 0), h1.(pc := DrHolder));
    Then(a, m, t, w.(rec := 0), h1.(pc := DrHolder), w.(rec := 0, holder := None), h1.(pc := DrMutex));
    Then(a, m, t, w.(rec := 0, holder := None), h1.(pc := DrMutex), Words(None, None, 0), h1);
  }

  lemma SumOfOne(n: nat)
    ensures Sum([n]) == n
  {
    assert [n][..0] == [];
  }

  lemma Dropped(a: Monitor, m: Monitor, t: nat)
    requires Reaches(a, m) && t < |m.th| && m.th[t].pc == Out && m.th[t].live > 0 && m.w.rec != 1
    ensures Reaches(a, To(m, t, m.w.(rec := Dec(m.w.rec)), m.th[t].(live := m.th[t].live - 1)))
  {
    hide Reaches;
    var w, h := m.w, m.th[t];
    Begin(a, m, t);
    Then(a, m, t, w, h, w, h.(pc := DrCount));
    Then(a, m, t, w, h.(pc := DrCount), w.(rec := Dec(w.rec)), h.(live := h.live - 1));
  }

  // ---------------------------------------------------------------- the two runs

  lemma Updates()
    ensures forall x: Th, y: Th :: [x][0 := y] == [y]
    ensures forall x: Th, y: Th, z: Th :: [x, y][0 := z] == [z, y] && [x, y][1 := z] == [x, z]
  {
  }

  lemma AsRun(a: Monitor, m: Monitor) returns (run: seq<Monitor>, who: seq<nat>)
    requires Start(a) && Reaches(a, m)
    ensures IsRun(run, who) && run[0] == a && run[|who|] == m
  {
    var ms, ws :| Joins(a, m, ms, ws);
    run, who := ms, ws;
  }

  /** One thread locks twice and drops the first guard inside an unlocked scope of the second: when
      the last guard is gone, the mutex is still locked. */
  lemma DropInScopeKeepsMutex() returns (run: seq<Monitor>, who: seq<nat>)
    ensures IsRun(run, who) && run[0].th == [Th(Out, 0, [], [])]
    ensures var m := run[|who|]; m.th == [Th(Out, 0, [], [])] && m.w == Words(Some(0), Some(0), 1)
  {
    hide Reaches;
    Updates();
    var a := Monitor(Words(None, None, 0), [Th(Out, 0, [], [])]);
    var twice := Monitor(Words(Some(0), Some(0), 2), [Th(Out, 2, [], [])]);
    var back := Monitor(Words(Some(0), Some(0), 2), [Th(Out, 1, [], [])]);
    Here(a);
    Locked(a, a, 0);
    LockedAgain(a, Monitor(Words(Some(0), Some(0), 1), [Th(Out, 1, [], [])]), 0);
    ScopeEntered(a, twice, 0);
    SuspendedDropped(a, Monitor(Words(None, None, 0), [Th(Out, 0, [2], [2])]), 0, 2);
    ScopeLeft(a, Monitor(Words(None, None, USIZE - 1), [Th(Out, 0, [1], [2])]), 0, 1, 2);
    Dropped(a, back, 0);
    run, who := AsRun(a, Monitor(Words(Some(0), Some(0), 1), [Th(Out, 0, [], [])]));
  }

  /** With a third guard taken inside the scope, the drop releases the mutex under it, and another
      thread gets in: two threads hold a guard. */
  lemma DropInScopeAdmitsTwo() returns (run: seq<Monitor>, who: seq<nat>)
    ensures IsRun(run, who) && run[0].th == [Th(Out, 0, [], []), Th(Out, 0, [], [])]
    ensures var m := run[|who|]; m.th == [Th(Out, 1, [1], [2]), Th(Out, 1, [], [])] && m.w == Words(Some(1), Some(1), 1)
  {
    hide Reaches;
    Updates();
    var b := Th(Out, 0, [], []);
    var a := Monitor(Words(None, None, 0), [b, b]);
    Here(a);
    Locked(a, a, 0);
    LockedAgain(a, Monitor(Words(Some(0), Some(0), 1), [Th(Out, 1, [], []), b]), 0);
    ScopeEntered(a, Monitor(Words(Some(0), Some(0), 2), [Th(Out, 2, [], []), b]), 0);
    Locked(a, Monitor(Words(None, None, 0), [Th(Out, 0, [2], [2]), b]), 0);
    SuspendedDroppedLast(a, Monitor(Words(Some(0), Some(0), 1), [Th(Out, 1, [2], [2]), b]), 0, 2);
    Locked(a, Monitor(Words(None, None, 0), [Th(Out, 1, [1], [2]), b]), 1);
    run, who := AsRun(a, Monitor(Words(Some(1), Some(1), 1), [Th(Out, 1, [1], [2]), Th(Out, 1, [], [])]));
  }
}
