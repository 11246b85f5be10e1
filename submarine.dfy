/**
 * `Submarine`: the life and lost bookkeeping shared by both submarines.
 * Setting the life records the drop from the previous life, then the
 * new life; nothing is clamped and nothing accumulates.
 */
module Submarines {

  /** The two fields the `life` setter touches. */
  datatype Health = Health(life: int, lost: int)

  /** The state of a new submarine: six lives, none lost. */
  const Initial := Health(6, 0)

  /** The `life` setter on values. */
  function AfterSetLife(h: Health, v: int): (r: Health)
    ensures r.life == v && r.life + r.lost == h.life
  {
    Health(v, h.life - v)
  }

  /** The state after the setter has been called with each value of `vs` in turn. */
  function Replay(h: Health, vs: seq<int>): Health
    decreases |vs|
  {
    if vs == [] then h else Replay(AfterSetLife(h, vs[0]), vs[1..])
  }

  /**
   * After at least one update, `lost` is the drop of the latest update
   * alone, from the life before it; earlier drops are forgotten.
   */
  lemma {:induction false} LostIsLatestDrop(h: Health, vs: seq<int>)
    requires |vs| > 0
    ensures Replay(h, vs).life == vs[|vs| - 1]
    ensures Replay(h, vs).lost == (if |vs| == 1 then h.life else vs[|vs| - 2]) - vs[|vs| - 1]
    decreases |vs|
  {
    if |vs| > 1 {
      LostIsLatestDrop(AfterSetLife(h, vs[0]), vs[1..]);
      assert vs[1..][|vs| - 2] == vs[|vs| - 1];
      if |vs| > 2 {
        assert vs[1..][|vs| - 3] == vs[|vs| - 2];
      }
    }
  }

  /** Replaying from a new submarine: the life is the last value set, or 6, and `lost` the last drop, or 0. */
  lemma ReplayFromStart(vs: seq<int>)
    ensures Replay(Initial, vs).life == if vs == [] then 6 else vs[|vs| - 1]
    ensures Replay(Initial, vs).lost == if vs == [] then 0
      else (if |vs| == 1 then 6 else vs[|vs| - 2]) - vs[|vs| - 1]
  {
    if vs != [] {
      LostIsLatestDrop(Initial, vs);
    }
  }

  /** Raising the life makes `lost` negative: there is no clamping at zero. */
  lemma RaiseGivesNegativeLoss(h: Health, v: int)
    requires v > h.life
    ensures AfterSetLife(h, v).lost < 0
  {
  }

  /** The same drop happens from any starting life: `lost` does not depend on earlier losses. */
  lemma LossForgetsHistory(h: Health, h': Health, v: int)
    requires h.life == h'.life
    ensures AfterSetLife(h, v) == AfterSetLife(h', v)
  {
  }

  /** The `Submarine` class, updated in place by the `life` setter. */
  class Submarine {
    var life: int
    var lost: int

    /** A new submarine has six lives and has lost none. */
    constructor ()
      ensures Health(life, lost) == Initial
    {
      life := 6;
      lost := 0;
    }

    /** The `life` setter. */
    method SetLife(v: int)
      modifies this
      ensures Health(life, lost) == AfterSetLife(old(Health(life, lost)), v)
    {
      lost := life - v;
      life := v;
    }
  }
}
