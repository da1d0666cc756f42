/** The learners of src/ai.rs. `Ai` keeps one (good, bad) pair per board
    and judges a cell by the pair of the board that playing there gives;
    `RngAi` plays a winning cell when it sees one and a random empty cell
    otherwise. The `Game` type those players work on is the nine-cell
    board of module Engine, with the `x_wins` of src/engine.rs. */
module Agents {
  import Engine
  import Rng

  // ---------------------------------------------------------------------
  // The table

  /** The pair kept for one board: slot 0 collects rewards, slot 1
      penalties. */
  type Pair = (nat, nat)

  type Lut = map<Engine.Board, Pair>

  /** `lut.get(key).unwrap_or(&[0, 0])`. */
  function Get(lut: Lut, key: Engine.Board): Pair
  {
    if key in lut then lut[key] else (0, 0)
  }

  /** The score of playing X on cell `i` of `b`: slot 0 minus slot 1 of
      the board that results. */
  function Score(lut: Lut, b: Engine.Board, i: nat): int
    requires i < 9
  {
    var wl := Get(lut, b[i := Engine.Spot.X]);
    wl.0 as int - wl.1 as int
  }

  /** `i` is an empty cell of `b`. */
  predicate Open(b: Engine.Board, i: nat)
  {
    i < 9 && b[i] == Engine.Spot.A
  }

  // ---------------------------------------------------------------------
  // Feedback

  /** One reward of `scale` for `key`, in slot 0 when `good` and in slot 1
      otherwise; an absent key gets a fresh pair holding just that reward. */
  function Reward(lut: Lut, key: Engine.Board, good: bool, scale: nat): Lut
  {
    var p := Get(lut, key);
    lut[key := if good then (p.0 + scale, p.1) else (p.0, p.1 + scale)]
  }

  /** The table after feeding back `cs` in order, the flag toggled after
      every key. */
  function Rewarded(lut: Lut, good: bool, scale: nat, cs: seq<Engine.Board>): Lut
    decreases |cs|
  {
    if cs == [] then lut
    else Rewarded(Reward(lut, cs[0], good, scale), !good, scale, cs[1..])
  }

  /** The number of positions `k` of `cs` holding `key` whose reward lands
      in slot 0 when feedback starts with flag `good`: those where `k` and
      `good` agree in parity (`good` with an even `k`, `!good` with an odd
      one). */
  function Hits(cs: seq<Engine.Board>, key: Engine.Board, good: bool): nat
    decreases |cs|
  {
    if cs == [] then 0
    else (if cs[0] == key && good then 1 else 0) + Hits(cs[1..], key, !good)
  }

  /** The key at position `|cs|` counts in slot 0 exactly when that
      position has the parity of `good`. */
  lemma {:induction false} HitsLast(cs: seq<Engine.Board>, k: Engine.Board, key: Engine.Board, good: bool)
    ensures Hits(cs + [k], key, good) ==
      Hits(cs, key, good) + (if k == key && good == Engine.Even(|cs|) then 1 else 0)
    decreases |cs|
  {
    if cs == [] {
      assert [k][1..] == [];
    } else {
      assert (cs + [k])[1..] == cs[1..] + [k];
      HitsLast(cs[1..], k, key, !good);
      Engine.EvenStep(|cs|, |cs| - 1);
    }
  }

  /** Every occurrence of a key is counted in exactly one slot. */
  lemma {:induction false} HitsTotal(cs: seq<Engine.Board>, key: Engine.Board, good: bool)
    ensures Hits(cs, key, good) + Hits(cs, key, !good) == multiset(cs)[key]
    decreases |cs|
  {
    if cs != [] {
      HitsTotal(cs[1..], key, !good);
      assert cs == [cs[0]] + cs[1..];
    }
  }

  /** Feedback adds `scale` once per occurrence of a key: to slot 0 for the
      occurrences whose position has the parity of `good`, to slot 1 for
      the others. */
  lemma {:induction false} RewardedCounts(lut: Lut, good: bool, scale: nat, cs: seq<Engine.Board>, key: Engine.Board)
    ensures Get(Rewarded(lut, good, scale, cs), key) ==
      (Get(lut, key).0 + scale * Hits(cs, key, good), Get(lut, key).1 + scale * Hits(cs, key, !good))
    decreases |cs|
  {
    if cs != [] {
      var next := Reward(lut, cs[0], good, scale);
      RewardedCounts(next, !good, scale, cs[1..], key);
      var h0, h1 := Hits(cs[1..], key, !good), Hits(cs[1..], key, good);
      if cs[0] != key {
        assert Get(next, key) == Get(lut, key);
      } else if good {
        assert Get(next, key) == (Get(lut, key).0 + scale, Get(lut, key).1);
        assert scale * (1 + h0) == scale + scale * h0;
      } else {
        assert Get(next, key) == (Get(lut, key).0, Get(lut, key).1 + scale);
        assert scale * (1 + h1) == scale + scale * h1;
      }
    }
  }

  /** Feedback adds exactly the logged keys to the table. */
  lemma {:induction false} RewardedKeys(lut: Lut, good: bool, scale: nat, cs: seq<Engine.Board>, key: Engine.Board)
    ensures key in Rewarded(lut, good, scale, cs) <==> key in lut || key in cs
    decreases |cs|
  {
    if cs != [] {
      RewardedKeys(Reward(lut, cs[0], good, scale), !good, scale, cs[1..], key);
      assert cs == [cs[0]] + cs[1..];
    }
  }

  /** A key that was not logged keeps its entry, or its absence. */
  lemma Untouched(lut: Lut, good: bool, scale: nat, cs: seq<Engine.Board>, key: Engine.Board)
    requires key !in cs
    ensures key in Rewarded(lut, good, scale, cs) <==> key in lut
    ensures Get(Rewarded(lut, good, scale, cs), key) == Get(lut, key)
  {
    RewardedKeys(lut, good, scale, cs, key);
    RewardedCounts(lut, good, scale, cs, key);
    HitsTotal(cs, key, good);
  }

  /** With `scale` 0 no score moves, yet every logged key absent before now
      holds a zero pair. */
  lemma ZeroScale(lut: Lut, good: bool, cs: seq<Engine.Board>, key: Engine.Board)
    ensures Get(Rewarded(lut, good, 0, cs), key) == Get(lut, key)
    ensures key in cs ==> key in Rewarded(lut, good, 0, cs)
  {
    RewardedKeys(lut, good, 0, cs, key);
    RewardedCounts(lut, good, 0, cs, key);
  }

  // ---------------------------------------------------------------------
  // The tabular player

  class Ai {
    var lut: Lut

    constructor ()
      ensures lut == map[]
    {
      lut := map[];
    }

    /** The scan of `mv`: every empty cell is scored; a score above the
        best so far restarts the list of candidates with that cell, and a
        score within 3 of the best so far joins the list. `max` is the best
        score of an empty cell (meaningful when some cell is empty). */
    method Candidates(b: Engine.Board) returns (cands: seq<nat>, max: int)
      ensures |cands| <= 9
      ensures cands == [] <==> Engine.Spot.A !in b
      ensures forall m :: 0 <= m < |cands| ==> Open(b, cands[m])
      ensures forall p, q :: 0 <= p < q < |cands| ==> cands[p] < cands[q]
      ensures cands != [] ==> cands[0] < 9 && max == Score(lut, b, cands[0])
      ensures forall j: nat :: Open(b, j) ==> Score(lut, b, j) <= max
      ensures cands != [] ==> forall j: nat :: Open(b, j) && j < cands[0] ==> Score(lut, b, j) < max
      ensures cands != [] ==> forall j: nat :: Open(b, j) ==> (j in cands <==> cands[0] <= j && Score(lut, b, j) + 3 > max)
    {
      var maxi := new nat[9];
      var mxidx := 0;
      ghost var cs: seq<nat> := [];
      max := 0;
      for i := 0 to 9
        invariant mxidx <= i && cs == maxi[..mxidx]
        invariant mxidx == 0 <==> forall j :: 0 <= j < i ==> b[j] != Engine.Spot.A
        invariant forall m :: 0 <= m < |cs| ==> cs[m] < i && Open(b, cs[m])
        invariant forall p, q :: 0 <= p < q < |cs| ==> cs[p] < cs[q]
        invariant cs != [] ==> cs[0] < 9 && max == Score(lut, b, cs[0])
        invariant forall j: nat :: Open(b, j) && j < i ==> Score(lut, b, j) <= max
        invariant cs != [] ==> forall j: nat :: Open(b, j) && j < cs[0] ==> Score(lut, b, j) < max
        invariant cs != [] ==> forall j: nat :: Open(b, j) && j < i ==>
          (j in cs <==> cs[0] <= j && Score(lut, b, j) + 3 > max)
      {
        if b[i] == Engine.Spot.A {
          var w := Score(lut, b, i);
          // `max` starts below every score, so the first empty cell always
          // takes this branch.
          if mxidx == 0 || w > max {
            max := w;
            maxi[0] := i;
            mxidx := 1;
            cs := [i];
          } else if w + 3 > max {
            maxi[mxidx] := i;
            mxidx := mxidx + 1;
            cs := cs + [i];
          }
        }
      }
      cands := maxi[..mxidx];
      if Engine.Spot.A in b {
        var e :| 0 <= e < 9 && b[e] == Engine.Spot.A;
        assert mxidx > 0;
      }
    }

    /** `mv`: some candidate, chosen by the random source; 0 on a full
        board. An empty cell is returned whenever there is one; no empty
        cell scores 3 or more above it, and some best-scoring empty cell
        lies at or before it (the first such one restarts the list). */
    method Mv(b: Engine.Board) returns (c: nat)
      ensures Engine.Spot.A !in b ==> c == 0
      ensures Engine.Spot.A in b ==> Open(b, c)
      ensures Engine.Spot.A in b ==> forall j: nat :: Open(b, j) ==> Score(lut, b, j) < Score(lut, b, c) + 3
      ensures Engine.Spot.A in b ==>
        exists f: nat :: f <= c && Open(b, f) && forall j: nat :: Open(b, j) ==> Score(lut, b, j) <= Score(lut, b, f)
    {
      var cands, max := Candidates(b);
      c := Rng.Choose(cands);
    }

    /** `feedback`: rewards every key of `choices` in order, alternating
        between the slots. */
    method Feedback(good: bool, scale: nat, choices: seq<Engine.Board>)
      modifies this
      ensures lut == Rewarded(old(lut), good, scale, choices)
    {
      var g := good;
      for i := 0 to |choices|
        invariant Rewarded(lut, g, scale, choices[i..]) == Rewarded(old(lut), good, scale, choices)
      {
        var key := choices[i];
        assert choices[i..][1..] == choices[i + 1..];
        ghost var next := Reward(lut, key, g, scale);
        if key in lut {
          var val := lut[key];
          if g {
            lut := lut[key := (val.0 + scale, val.1)];
          } else {
            lut := lut[key := (val.0, val.1 + scale)];
          }
        } else {
          var val := if g then (scale, 0) else (0, scale);
          lut := lut[key := val];
        }
        assert lut == next;
        g := !g;
      }
    }
  }

  // ---------------------------------------------------------------------
  // The one-ply player

  /** Playing X on cell `i` completes a line, as `x_wins` reports it. */
  predicate WinsAt(b: Engine.Board, i: nat)
    requires i < 9
  {
    Engine.XWins(b[i := Engine.Spot.X]) == Engine.GameResult.X
  }

  /** `x_wins` reports a win exactly for a geometric line. */
  lemma WinsAtMeaning(b: Engine.Board, i: nat)
    requires i < 9
    ensures WinsAt(b, i) <==> Engine.HasXLine(b[i := Engine.Spot.X])
  {
    Engine.XWinsMeaning(b[i := Engine.Spot.X]);
  }

  /** `mv` of `RngAi`: the lowest empty cell where X wins at once if there
      is one; otherwise some empty cell chosen by the random source, or 0
      when the board is full. */
  method RngMove(b: Engine.Board) returns (c: nat)
    ensures (exists i :: Open(b, i) && WinsAt(b, i)) ==>
      Open(b, c) && WinsAt(b, c) && forall j: nat :: Open(b, j) && j < c ==> !WinsAt(b, j)
    ensures (forall i :: Open(b, i) ==> !WinsAt(b, i)) && Engine.Spot.A in b ==> Open(b, c)
    ensures Engine.Spot.A !in b ==> c == 0
  {
    var icand := new nat[9];
    var icanlen := 0;
    for i := 0 to 9
      invariant icanlen <= i
      invariant forall j: nat :: Open(b, j) && j < i ==> !WinsAt(b, j)
      invariant forall m :: 0 <= m < icanlen ==> Open(b, icand[m])
      invariant icanlen == 0 <==> forall j :: 0 <= j < i ==> b[j] != Engine.Spot.A
    {
      if b[i] == Engine.Spot.A {
        if Engine.XWins(b[i := Engine.Spot.X]) == Engine.GameResult.X {
          return i;
        }
        icand[icanlen] := i;
        icanlen := icanlen + 1;
      }
    }
    if Engine.Spot.A in b {
      var e :| 0 <= e < 9 && b[e] == Engine.Spot.A;
      assert icanlen > 0;
    }
    c := Rng.Choose(icand[..icanlen]);
    assert forall m :: 0 <= m < icanlen ==> icand[..icanlen][m] == icand[m];
  }
}
