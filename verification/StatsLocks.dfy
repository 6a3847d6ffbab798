/**
 * Why writer transactions never wait for each other in a circle: each takes its request rows in
 * one ascending order, burgers before shops, and keeps them until it commits.
 */
module StatsLocks {
  import opened Listings
  import opened StatsTables

  /** The order in which rows are taken. */
  predicate Below(a: Entity, b: Entity)
  {
    if a.kind == b.kind then a.id < b.id else a.kind == Burgers
  }

  ghost predicate Ascends(es: seq<Entity>)
  {
    forall i, j :: 0 <= i < j < |es| ==> Below(es[i], es[j])
  }

  /** The rows of any writer transaction ascend. */
  lemma TouchedAscends(t: Tables, burgers: set<nat>)
    ensures Ascends(Touched(t, burgers))
  {
    var first, second := Ascending(burgers), Ascending(LinkedShops(t, burgers));
    var es := Touched(t, burgers);
    forall i, j | 0 <= i < j < |es|
      ensures Below(es[i], es[j])
    {
      if j < |first| {
        assert first[i] < first[j];
      } else if i >= |first| {
        assert second[i - |first|] < second[j - |first|];
      }
    }
  }

  /** A transaction that holds the first `held` of its rows and wants the next one. */
  datatype Writer = Writer(rows: seq<Entity>, held: nat)

  predicate HoldsRow(w: Writer, e: Entity)
  {
    w.held <= |w.rows| && e in w.rows[..w.held]
  }

  /** Everybody wants a row that somebody among them holds. */
  ghost predicate Deadlocked(ws: set<Writer>)
  {
    ws != {} && forall w :: w in ws ==> w.held < |w.rows| && exists v :: v in ws && HoldsRow(v, w.rows[w.held])
  }

  /** The writer that wants the highest row. */
  lemma {:induction false} HighestWanted(ws: set<Writer>) returns (top: Writer)
    requires ws != {} && forall w :: w in ws ==> w.held < |w.rows|
    ensures top in ws && forall w :: w in ws ==> !Below(top.rows[top.held], w.rows[w.held])
    decreases |ws|
  {
    var one :| one in ws;
    var rest := ws - {one};
    assert ws == rest + {one};
    if rest == {} {
      top := one;
      assert ws == {one};
    } else {
      var other := HighestWanted(rest);
      top := if Below(other.rows[other.held], one.rows[one.held]) then one else other;
      forall w | w in ws
        ensures !Below(top.rows[top.held], w.rows[w.held])
      {
        assert w == one || w in rest;
      }
    }
  }

  /** Writers that take ascending rows are never deadlocked, however many there are. */
  lemma AscendingNeverDeadlocks(ws: set<Writer>)
    requires forall w :: w in ws ==> Ascends(w.rows)
    ensures !Deadlocked(ws)
  {
    if ws != {} && forall w :: w in ws ==> w.held < |w.rows| {
      var top := HighestWanted(ws);
      forall v | v in ws
        ensures !HoldsRow(v, top.rows[top.held])
      {
        if HoldsRow(v, top.rows[top.held]) {
          HeldBelowWanted(v, top.rows[top.held]);
        }
      }
    }
  }

  /** What a writer wants is above everything it holds. */
  lemma HeldBelowWanted(w: Writer, e: Entity)
    requires Ascends(w.rows) && w.held < |w.rows| && HoldsRow(w, e)
    ensures Below(e, w.rows[w.held])
  {
  }

  /** Without the order two writers suffice. */
  lemma OppositeOrdersDeadlock(a: Entity, b: Entity)
    requires a != b
    ensures Deadlocked({Writer([a, b], 1), Writer([b, a], 1)})
  {
    var v, w := Writer([a, b], 1), Writer([b, a], 1);
    assert v.rows[..1] == [a] && w.rows[..1] == [b];
    assert HoldsRow(v, a) && HoldsRow(w, b);
  }
}
