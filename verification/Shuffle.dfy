/** The in-place shuffle of a batch, driven by one draw for each position. */
module Shuffle {

  /** A draw for position i lies in 0..i. */
  predicate Draws(picks: seq<nat>, n: nat) {
    |picks| == n && forall i | 0 <= i < n :: picks[i] <= i
  }

  function Swap<T>(b: seq<T>, i: nat, j: nat): (r: seq<T>)
    requires i < |b| && j < |b|
    ensures |r| == |b|
  {
    b[i := b[j]][j := b[i]]
  }

  /** Positions i down to 1 exchanged with the positions drawn for them. */
  function ShuffleDown<T>(b: seq<T>, picks: seq<nat>, i: nat): (r: seq<T>)
    requires Draws(picks, |b|) && i < |b|
    ensures |r| == |b|
    decreases i
  {
    if i == 0 then b else ShuffleDown(Swap(b, i, picks[i]), picks, i - 1)
  }

  function Shuffled<T>(b: seq<T>, picks: seq<nat>): (r: seq<T>)
    requires Draws(picks, |b|)
    ensures |r| == |b|
  {
    if b == [] then b else ShuffleDown(b, picks, |b| - 1)
  }

  lemma SwapKeeps<T>(b: seq<T>, i: nat, j: nat)
    requires i < |b| && j < |b|
    ensures multiset(Swap(b, i, j)) == multiset(b)
  {
  }

  lemma {:induction false} ShuffleDownKeeps<T>(b: seq<T>, picks: seq<nat>, i: nat)
    requires Draws(picks, |b|) && i < |b|
    ensures multiset(ShuffleDown(b, picks, i)) == multiset(b)
    decreases i
  {
    if i > 0 {
      SwapKeeps(b, i, picks[i]);
      hide Swap;
      ShuffleDownKeeps(Swap(b, i, picks[i]), picks, i - 1);
    }
  }

  /** A shuffled batch is the batch in another order. */
  lemma ShuffleKeeps<T>(b: seq<T>, picks: seq<nat>)
    requires Draws(picks, |b|)
    ensures multiset(Shuffled(b, picks)) == multiset(b)
  {
    if b != [] {
      ShuffleDownKeeps(b, picks, |b| - 1);
    }
  }

  method ShuffleInPlace<T>(batch: array<T>, picks: seq<nat>)
    requires Draws(picks, batch.Length)
    modifies batch
    ensures batch[..] == Shuffled(old(batch[..]), picks)
  {
    if batch.Length == 0 {
      return;
    }
    var i := batch.Length - 1;
    while i > 0
      invariant 0 <= i < batch.Length
      invariant ShuffleDown(batch[..], picks, i) == Shuffled(old(batch[..]), picks)
    {
      var j := picks[i];
      ghost var before := batch[..];
      batch[i], batch[j] := batch[j], batch[i];
      assert batch[..] == Swap(before, i, j);
      i := i - 1;
    }
  }

  lemma {:induction false} AboveKept<T>(b: seq<T>, picks: seq<nat>, i: nat, k: nat)
    requires Draws(picks, |b|) && i < k < |b|
    ensures ShuffleDown(b, picks, i)[k] == b[k]
    decreases i
  {
    if i > 0 {
      assert Swap(b, i, picks[i])[k] == b[k];
      hide Swap;
      AboveKept(Swap(b, i, picks[i]), picks, i - 1, k);
    }
  }

  lemma SwapDistinct<T>(b: seq<T>, i: nat, j: nat)
    requires i < |b| && j < |b| && forall x, y | 0 <= x < y < |b| :: b[x] != b[y]
    ensures var r := Swap(b, i, j); forall x, y | 0 <= x < y < |r| :: r[x] != r[y]
  {
  }

  /** Different draws give different orders: with |b|! draws to choose from, each order comes from exactly one. */
  lemma {:induction false} DrawsSeparate<T>(b: seq<T>, p: seq<nat>, q: seq<nat>, i: nat)
    requires Draws(p, |b|) && Draws(q, |b|) && i < |b|
    requires forall j, k | 0 <= j < k < |b| :: b[j] != b[k]
    requires ShuffleDown(b, p, i) == ShuffleDown(b, q, i)
    ensures forall k | 0 < k <= i :: p[k] == q[k]
    decreases i
  {
    if i > 0 {
      AboveKept(Swap(b, i, p[i]), p, i - 1, i);
      AboveKept(Swap(b, i, q[i]), q, i - 1, i);
      assert Swap(b, i, p[i])[i] == b[p[i]] && Swap(b, i, q[i])[i] == b[q[i]];
      SwapDistinct(b, i, p[i]);
      hide Swap;
      assert p[i] == q[i];
      DrawsSeparate(Swap(b, i, p[i]), p, q, i - 1);
    }
  }

  ghost predicate AllDistinct<T>(b: seq<T>) {
    forall j, k | 0 <= j < k < |b| :: b[j] != b[k]
  }

  lemma {:induction false} PicksBelow<T>(b: seq<T>, p: seq<nat>, q: seq<nat>, i: nat)
    requires Draws(p, |b|) && Draws(q, |b|) && i < |b| && p[..i + 1] == q[..i + 1]
    ensures ShuffleDown(b, p, i) == ShuffleDown(b, q, i)
    decreases i
  {
    if i > 0 {
      assert p[i] == p[..i + 1][i] && q[i] == q[..i + 1][i];
      assert p[..i] == p[..i + 1][..i] && q[..i] == q[..i + 1][..i];
      hide Swap;
      PicksBelow(Swap(b, i, p[i]), p, q, i - 1);
    }
  }

  /** The place in b of the element c has at i, when they agree above i. */
  lemma PlaceOf<T>(b: seq<T>, c: seq<T>, i: nat) returns (j: nat)
    requires |b| == |c| && i < |b| && multiset(b) == multiset(c) && AllDistinct(b) && AllDistinct(c)
    requires forall k | i < k < |b| :: b[k] == c[k]
    ensures j <= i && b[j] == c[i]
  {
    assert c[i] in multiset(c);
    assert c[i] in multiset(b);
    j :| 0 <= j < |b| && b[j] == c[i];
    assert forall k | i < k < |b| :: c[k] != c[i] && b[k] == c[k];
  }

  lemma {:induction false} DrawFor<T>(b: seq<T>, c: seq<T>, i: nat) returns (p: seq<nat>)
    requires |b| == |c| && i < |b| && multiset(b) == multiset(c) && AllDistinct(b) && AllDistinct(c)
    requires forall k | i < k < |b| :: b[k] == c[k]
    ensures Draws(p, |b|) && ShuffleDown(b, p, i) == c
    decreases i
  {
    var j := PlaceOf(b, c, i);
    if i == 0 {
      p := seq(|b|, _ => 0);
      assert b == c;
    } else {
      var s := Swap(b, i, j);
      SwapKeeps(b, i, j);
      SwapDistinct(b, i, j);
      assert forall k | i - 1 < k < |b| :: s[k] == c[k];
      hide Swap;
      var q := DrawFor(s, c, i - 1);
      p := q[i := j];
      PicksBelow(s, p, q, i - 1);
    }
  }

  lemma DistinctByCount<T>(b: seq<T>)
    ensures AllDistinct(b) <==> forall x :: multiset(b)[x] <= 1
  {
    if AllDistinct(b) {
      forall x ensures multiset(b)[x] <= 1 {
        OnceIfDistinct(b, x);
      }
    }
    forall j, k | 0 <= j < k < |b| && b[j] == b[k] ensures multiset(b)[b[j]] > 1 {
      assert b == b[..k] + b[k..];
      assert b[j] in b[..k] && b[k..][0] == b[k];
    }
  }

  lemma {:induction false} OnceIfDistinct<T>(b: seq<T>, x: T)
    requires AllDistinct(b)
    ensures multiset(b)[x] <= 1
  {
    if b != [] {
      OnceIfDistinct(b[1..], x);
      assert b == [b[0]] + b[1..];
      assert b[0] !in b[1..];
    }
  }

  /** Every order of a batch comes from exactly one choice of the draws: with fair draws all are equally likely. */
  lemma EveryOrderDrawnOnce<T>(b: seq<T>, c: seq<T>)
    requires AllDistinct(b) && multiset(c) == multiset(b)
    ensures exists p :: Draws(p, |b|) && Shuffled(b, p) == c
    ensures forall p, q | Draws(p, |b|) && Draws(q, |b|) && Shuffled(b, p) == Shuffled(b, q) :: p == q
  {
    assert |b| == |multiset(b)| == |multiset(c)| == |c|;
    DistinctByCount(b);
    DistinctByCount(c);
    if b == [] {
      assert Draws([], |b|) && Shuffled(b, []) == c;
    } else {
      var p := DrawFor(b, c, |b| - 1);
      assert Shuffled(b, p) == c;
      forall p, q | Draws(p, |b|) && Draws(q, |b|) && Shuffled(b, p) == Shuffled(b, q) ensures p == q {
        DrawsSeparate(b, p, q, |b| - 1);
        assert p[0] == 0 == q[0];
      }
    }
  }
}
