/**
 Time windows over rows: what one stage of a stream computes, what a chain of them computes,
 and why feeding rows piecemeal through carry buffers changes nothing.
 */
module Windows {
  import opened Arith
  import opened Rows

  type Row<V> = seq<V>

  /** An operator that reads `need` rows per output row and retires `consume` of them. */
  datatype Window<!V> = Window(need: nat, consume: nat, eval: seq<Row<V>> -> Row<V>)
  {
    predicate Valid() {
      0 < consume <= need
    }
  }

  ghost predicate ValidChain<V>(chain: seq<Window<V>>) {
    forall i :: 0 <= i < |chain| ==> chain[i].Valid()
  }

  /** The output rows for a whole input: one per window position, oldest first. */
  function Emit<V>(w: Window<V>, rows: seq<Row<V>>): seq<Row<V>>
    requires w.Valid()
    decreases |rows|
  {
    if |rows| < w.need then [] else [w.eval(rows[..w.need])] + Emit(w, rows[w.consume..])
  }

  /** The rows a later window may still read. */
  function Carry<V>(w: Window<V>, rows: seq<Row<V>>): (rest: seq<Row<V>>)
    requires w.Valid()
    ensures |rest| < w.need
    decreases |rows|
  {
    if |rows| < w.need then rows else Carry(w, rows[w.consume..])
  }

  function Positions(need: nat, consume: nat, have: nat): nat
    requires 0 < consume <= need
  {
    if have < need then 0 else (have - need) / consume + 1
  }

  lemma {:induction false} EmitLength<V>(w: Window<V>, rows: seq<Row<V>>)
    requires w.Valid()
    ensures |Emit(w, rows)| == Positions(w.need, w.consume, |rows|)
    ensures |Emit(w, rows)| * w.consume <= |rows|
    ensures Carry(w, rows) == rows[|Emit(w, rows)| * w.consume..]
    decreases |rows|
  {
    if |rows| >= w.need {
      var rest := rows[w.consume..];
      EmitLength(w, rest);
      DivStep(|rows| - w.need, w.consume);
      if |rest| < w.need {
        DivUnique(|rows| - w.need, w.consume, 0, |rows| - w.need);
      }
      var n := |Emit(w, rest)|;
      MulDist(n, 1, w.consume);
      assert |Emit(w, rows)| == n + 1;
      assert rest[n * w.consume..] == rows[(n + 1) * w.consume..];
    }
  }

  /** Output row k is the window starting k * consume rows in, and reads nothing else. */
  lemma {:induction false} EmitAt<V>(w: Window<V>, rows: seq<Row<V>>, k: nat)
    requires w.Valid() && k < |Emit(w, rows)|
    ensures k * w.consume + w.need <= |rows|
    ensures Emit(w, rows)[k] == w.eval(rows[k * w.consume..k * w.consume + w.need])
    decreases k
  {
    if k > 0 {
      var rest := rows[w.consume..];
      EmitAt(w, rest, k - 1);
      MulDist(k - 1, 1, w.consume);
      assert rest[(k - 1) * w.consume..(k - 1) * w.consume + w.need]
          == rows[k * w.consume..k * w.consume + w.need];
    }
  }

  /** A stage keeps only its carry between two feeds, and that loses nothing. */
  lemma {:induction false} EmitConcat<V>(w: Window<V>, a: seq<Row<V>>, b: seq<Row<V>>)
    requires w.Valid()
    ensures Emit(w, a + b) == Emit(w, a) + Emit(w, Carry(w, a) + b)
    ensures Carry(w, a + b) == Carry(w, Carry(w, a) + b)
    decreases |a|
  {
    if |a| >= w.need {
      EmitConcat(w, a[w.consume..], b);
      assert (a + b)[w.consume..] == a[w.consume..] + b;
      assert (a + b)[..w.need] == a[..w.need];
    }
  }

  /** Rows after the last complete window do not affect the output. */
  lemma EmitUsed<V>(w: Window<V>, rows: seq<Row<V>>, used: nat)
    requires w.Valid() && w.need <= |rows|
    requires used == w.need + (Positions(w.need, w.consume, |rows|) - 1) * w.consume
    ensures used <= |rows|
    ensures Emit(w, rows[..used]) == Emit(w, rows)
  {
    var n := Positions(w.need, w.consume, |rows|);
    LastWindow(w.need, w.consume, |rows|, used);
    EmitLength(w, rows);
    var cut := rows[..used];
    EmitLength(w, cut);
    var out, out' := Emit(w, rows), Emit(w, cut);
    forall k | 0 <= k < n ensures out[k] == out'[k] {
      EmitCutAt(w, rows, used, k);
    }
  }

  lemma LastWindow(need: nat, consume: nat, have: nat, used: int)
    requires 0 < consume <= need <= have
    requires used == need + (Positions(need, consume, have) - 1) * consume
    ensures need <= used <= have
    ensures Positions(need, consume, used) == Positions(need, consume, have)
  {
    var n := Positions(need, consume, have);
    PositionsBound(need, consume, have, n - 1);
    MulNonneg(n - 1, consume);
    MulDist(n, 1, consume);
    PositionsBound(need, consume, used, n - 1);
    PositionsBound(need, consume, used, n);
  }

  lemma EmitCutAt<V>(w: Window<V>, rows: seq<Row<V>>, used: nat, k: nat)
    requires w.Valid() && used <= |rows|
    requires k < |Emit(w, rows)| && k < |Emit(w, rows[..used])|
    ensures Emit(w, rows)[k] == Emit(w, rows[..used])[k]
  {
    EmitAt(w, rows, k);
    EmitAt(w, rows[..used], k);
    var from := k * w.consume;
    assert rows[..used][from..from + w.need] == rows[from..from + w.need];
  }

  // ---------------------------------------------------------------- chains

  /** Running every stage over the whole input, one after the other. */
  function Whole<V>(chain: seq<Window<V>>, rows: seq<Row<V>>): seq<Row<V>>
    requires ValidChain(chain)
  {
    if chain == [] then rows else Whole(chain[1..], Emit(chain[0], rows))
  }

  /** What each stage holds back after the whole input went through the chain. */
  function Held<V>(chain: seq<Window<V>>, rows: seq<Row<V>>): (held: seq<seq<Row<V>>>)
    requires ValidChain(chain)
    ensures |held| == |chain|
  {
    if chain == [] then [] else [Carry(chain[0], rows)] + Held(chain[1..], Emit(chain[0], rows))
  }

  /** One feed through the chain: new held rows and what came out. */
  function Feed<V>(chain: seq<Window<V>>, held: seq<seq<Row<V>>>, rows: seq<Row<V>>)
    : (r: (seq<seq<Row<V>>>, seq<Row<V>>))
    requires ValidChain(chain) && |held| == |chain|
    ensures |r.0| == |chain|
  {
    if chain == [] then ([], rows) else
      var all := held[0] + rows;
      var (rest, out) := Feed(chain[1..], held[1..], Emit(chain[0], all));
      ([Carry(chain[0], all)] + rest, out)
  }

  ghost predicate Waiting<V>(chain: seq<Window<V>>, held: seq<seq<Row<V>>>) {
    && |held| == |chain|
    && forall i :: 0 <= i < |chain| ==> |held[i]| < chain[i].need
  }

  lemma {:induction false} HeldWaits<V>(chain: seq<Window<V>>, rows: seq<Row<V>>)
    requires ValidChain(chain)
    ensures Waiting(chain, Held(chain, rows))
  {
    if chain != [] {
      HeldWaits(chain[1..], Emit(chain[0], rows));
    }
  }

  /** The same feed taken stage by stage, from stage i on. */
  function FeedFrom<V>(chain: seq<Window<V>>, held: seq<seq<Row<V>>>, i: nat, rows: seq<Row<V>>)
    : (r: (seq<seq<Row<V>>>, seq<Row<V>>))
    requires ValidChain(chain) && |held| == |chain| && i <= |chain|
    ensures |r.0| == |chain|
    decreases |chain| - i
  {
    if i == |chain| then (held, rows) else
      var all := held[i] + rows;
      FeedFrom(chain, held[i := Carry(chain[i], all)], i + 1, Emit(chain[i], all))
  }

  /** Once a stage emits nothing, the stages after it can be skipped. */
  lemma {:induction false} FeedFromNothing<V>(chain: seq<Window<V>>, held: seq<seq<Row<V>>>, i: nat)
    requires ValidChain(chain) && Waiting(chain, held) && i <= |chain|
    ensures FeedFrom(chain, held, i, []) == (held, [])
    decreases |chain| - i
  {
    if i < |chain| {
      assert held[i] + [] == held[i];
      assert held[i := held[i]] == held;
      FeedFromNothing(chain, held, i + 1);
    }
  }

  lemma {:induction false} FeedFromIsFeed<V>(chain: seq<Window<V>>, held: seq<seq<Row<V>>>, i: nat, rows: seq<Row<V>>)
    requires ValidChain(chain) && |held| == |chain| && i <= |chain|
    ensures FeedFrom(chain, held, i, rows).0 == held[..i] + Feed(chain[i..], held[i..], rows).0
    ensures FeedFrom(chain, held, i, rows).1 == Feed(chain[i..], held[i..], rows).1
    decreases |chain| - i
  {
    if i == |chain| {
      assert held[..i] + held[i..] == held;
    } else {
      var all := held[i] + rows;
      var h := Carry(chain[i], all);
      var held' := held[i := h];
      FeedFromIsFeed(chain, held', i + 1, Emit(chain[i], all));
      assert chain[i..][0] == chain[i] && chain[i..][1..] == chain[i + 1..];
      assert held[i..][0] == held[i] && held[i..][1..] == held'[i + 1..];
      assert held'[..i + 1] == held[..i] + [h];
      ConcatAssoc(held[..i], [h], Feed(chain[i + 1..], held'[i + 1..], Emit(chain[i], all)).0);
    }
  }

  /** Feeding more rows extends the whole-input output by exactly what comes out. */
  lemma {:induction false} FeedExtends<V>(chain: seq<Window<V>>, seen: seq<Row<V>>, rows: seq<Row<V>>)
    requires ValidChain(chain)
    ensures var (held, out) := Feed(chain, Held(chain, seen), rows);
            && held == Held(chain, seen + rows)
            && Whole(chain, seen) + out == Whole(chain, seen + rows)
  {
    if chain != [] {
      var w := chain[0];
      EmitConcat(w, seen, rows);
      FeedExtends(chain[1..], Emit(w, seen), Emit(w, Carry(w, seen) + rows));
      var h := Held(chain, seen);
      assert h[0] == Carry(w, seen);
      assert h[1..] == Held(chain[1..], Emit(w, seen));
    }
  }

  lemma {:induction false} HeldNothing<V>(chain: seq<Window<V>>)
    requires ValidChain(chain)
    ensures Held(chain, []) == seq(|chain|, _ => [])
    ensures Whole(chain, []) == []
  {
    if chain != [] {
      HeldNothing(chain[1..]);
    }
  }

  function FeedAll<V>(chain: seq<Window<V>>, held: seq<seq<Row<V>>>, feeds: seq<seq<Row<V>>>)
    : (r: (seq<seq<Row<V>>>, seq<Row<V>>))
    requires ValidChain(chain) && |held| == |chain|
    ensures |r.0| == |chain|
    decreases |feeds|
  {
    if feeds == [] then (held, []) else
      var (held1, out) := Feed(chain, held, feeds[0]);
      var (held2, more) := FeedAll(chain, held1, feeds[1..]);
      (held2, out + more)
  }

  /**
   However the rows are cut into feeds, a freshly reset chain returns what the stages compute
   over the uncut input, and every stage is left waiting for more rows.
   */
  lemma {:induction false} AnySplitIsWhole<V>(chain: seq<Window<V>>, feeds: seq<seq<Row<V>>>)
    requires ValidChain(chain)
    ensures var (held, out) := FeedAll(chain, seq(|chain|, _ => []), feeds);
            && out == Whole(chain, Join(feeds))
            && held == Held(chain, Join(feeds))
            && Waiting(chain, held)
  {
    HeldNothing(chain);
    FeedAllExtends(chain, [], feeds);
    assert [] + Join(feeds) == Join(feeds);
    HeldWaits(chain, Join(feeds));
  }

  lemma {:induction false} FeedAllExtends<V>(chain: seq<Window<V>>, seen: seq<Row<V>>, feeds: seq<seq<Row<V>>>)
    requires ValidChain(chain)
    ensures var (held, out) := FeedAll(chain, Held(chain, seen), feeds);
            && held == Held(chain, seen + Join(feeds))
            && Whole(chain, seen) + out == Whole(chain, seen + Join(feeds))
    decreases |feeds|
  {
    if feeds == [] {
      assert seen + Join(feeds) == seen;
    } else {
      FeedExtends(chain, seen, feeds[0]);
      FeedAllExtends(chain, seen + feeds[0], feeds[1..]);
      assert seen + Join(feeds) == seen + feeds[0] + Join(feeds[1..]);
      var (held1, out) := Feed(chain, Held(chain, seen), feeds[0]);
      var (held2, more) := FeedAll(chain, held1, feeds[1..]);
      assert Whole(chain, seen) + (out + more) == Whole(chain, seen) + out + more;
    }
  }

  // ---------------------------------------------------------------- the algebra of windows

  /** Rows the chain must read before its first output row. */
  function Reach<V>(chain: seq<Window<V>>): (n: nat)
    requires ValidChain(chain)
    ensures n > 0
  {
    if chain == [] then 1 else
      var r := Reach(chain[1..]);
      MulNonneg(r - 1, chain[0].consume);
      chain[0].need + (r - 1) * chain[0].consume
  }

  /** Rows the chain retires per output row. */
  function Stride<V>(chain: seq<Window<V>>): (n: nat)
    requires ValidChain(chain)
    ensures n > 0
  {
    if chain == [] then 1 else
      var r := Stride(chain[1..]);
      MulMono(1, chain[0].consume, r);
      chain[0].consume * r
  }

  /** Sum over the stages from i on of (need_i - 1) * consume_0 * ... * consume_(i-1). */
  function Overlaps<V>(chain: seq<Window<V>>, i: nat): int
    requires ValidChain(chain) && i <= |chain|
    decreases |chain| - i
  {
    if i == |chain| then 0 else (chain[i].need - 1) * Stride(chain[..i]) + Overlaps(chain, i + 1)
  }

  lemma {:induction false} OverlapsShift<V>(chain: seq<Window<V>>, i: nat)
    requires ValidChain(chain) && 1 <= i <= |chain|
    ensures Overlaps(chain, i) == chain[0].consume * Overlaps(chain[1..], i - 1)
    decreases |chain| - i
  {
    if i < |chain| {
      OverlapsShift(chain, i + 1);
      var rest := chain[1..];
      assert chain[..i][1..] == rest[..i - 1];
      var c, s, m, o := chain[0].consume, Stride(rest[..i - 1]), chain[i].need - 1, Overlaps(rest, i);
      assert chain[..i][0] == chain[0];
      assert Stride(chain[..i]) == c * s;
      OverlapArith(m, c, s, o);
    }
  }

  lemma OverlapArith(m: int, c: int, s: int, o: int)
    ensures m * (c * s) + c * o == c * (m * s + o)
  {
    MulAssoc(m, c, s);
    MulAssoc(c, m, s);
    MulDist(m * s, o, c);
  }

  /** The reach in closed form: W = need_0 + sum over i >= 1 of (need_i - 1) * consume_0 * ... * consume_(i-1). */
  lemma {:induction false} ReachClosedForm<V>(chain: seq<Window<V>>)
    requires ValidChain(chain) && chain != []
    ensures Reach(chain) == chain[0].need + Overlaps(chain, 1)
    decreases |chain|
  {
    var rest := chain[1..];
    OverlapsShift(chain, 1);
    if rest == [] {
    } else {
      ReachClosedForm(rest);
      OverlapsFromStart(rest);
    }
  }

  lemma OverlapsFromStart<V>(chain: seq<Window<V>>)
    requires ValidChain(chain) && chain != []
    ensures chain[0].need + Overlaps(chain, 1) == 1 + Overlaps(chain, 0)
  {
    assert chain[..0] == [];
    assert Stride(chain[..0]) == 1;
  }

  /** The first output row of a chain, from exactly the rows it can reach. */
  function First<V>(chain: seq<Window<V>>, rows: seq<Row<V>>): Row<V>
    requires ValidChain(chain)
  {
    var out := Whole(chain, rows);
    if out == [] then [] else out[0]
  }

  function Fused<V(!new)>(chain: seq<Window<V>>): (w: Window<V>)
    requires ValidChain(chain)
    ensures w.Valid()
  {
    StrideWithinReach(chain);
    Window(Reach(chain), Stride(chain), (rows: seq<Row<V>>) => First(chain, rows))
  }

  lemma {:induction false} StrideWithinReach<V>(chain: seq<Window<V>>)
    requires ValidChain(chain)
    ensures Stride(chain) <= Reach(chain)
  {
    if chain != [] {
      var c, s, r := chain[0].consume, Stride(chain[1..]), Reach(chain[1..]);
      StrideWithinReach(chain[1..]);
      MulMono(s, r, c);
      MulDist(r, 1, c);
    }
  }

  /** A chain emits a row per stride once it can reach that far. */
  lemma {:induction false} WholeLength<V>(chain: seq<Window<V>>, rows: seq<Row<V>>, k: nat)
    requires ValidChain(chain)
    ensures k < |Whole(chain, rows)| <==> k * Stride(chain) + Reach(chain) <= |rows|
  {
    if chain != [] {
      var w, rest := chain[0], chain[1..];
      var c, s, r := w.consume, Stride(rest), Reach(rest);
      var mid := Emit(w, rows);
      WholeLength(rest, mid, k);
      EmitLength(w, rows);
      // the rest needs k * s + r rows of mid, the last of which starts (k * s + r - 1) * c rows in
      MulNonneg(k, s);
      var j := k * s + r - 1;
      PositionsBound(w.need, c, |rows|, j);
      MulAssoc(k, s, c);
      MulDist(k * s, r - 1, c);
    }
  }

  lemma PositionsBound(need: nat, consume: nat, have: nat, j: nat)
    requires 0 < consume <= need
    ensures j < Positions(need, consume, have) <==> j * consume + need <= have
  {
    if have >= need {
      var n := have - need;
      var q := n / consume;
      assert n == consume * q + n % consume;
      if j <= q {
        MulMono(j, q, consume);
      } else {
        MulMono(q + 1, j, consume);
        MulDist(q, 1, consume);
      }
    } else {
      MulNonneg(j, consume);
    }
  }

  /** Dropping whole strides from the front drops that many output rows. */
  lemma {:induction false} WholeDrop<V>(chain: seq<Window<V>>, rows: seq<Row<V>>, k: nat, from: int)
    requires ValidChain(chain)
    requires from == k * Stride(chain)
    requires k < |Whole(chain, rows)|
    ensures 0 <= from <= |rows|
    ensures Whole(chain, rows[from..]) == Whole(chain, rows)[k..]
  {
    if chain != [] {
      var w, rest := chain[0], chain[1..];
      var m := k * Stride(rest);
      MulNonneg(k, Stride(rest));
      MulSwap(k, w.consume, Stride(rest));
      WholeLength(rest, Emit(w, rows), k);
      EmitDrop(w, rows, m, from);
      WholeDrop(rest, Emit(w, rows), k, m);
    }
  }

  lemma {:induction false} EmitDrop<V>(w: Window<V>, rows: seq<Row<V>>, m: nat, from: int)
    requires w.Valid() && m <= |Emit(w, rows)|
    requires from == m * w.consume
    ensures 0 <= from <= |rows|
    ensures Emit(w, rows[from..]) == Emit(w, rows)[m..]
    decreases m
  {
    if m > 0 {
      MulDist(m - 1, 1, w.consume);
      EmitDrop(w, rows[w.consume..], m - 1, from - w.consume);
      assert rows[w.consume..][from - w.consume..] == rows[from..];
      assert Emit(w, rows)[m..] == Emit(w, rows[w.consume..])[m - 1..];
    }
  }

  /** Rows past those an output row can reach do not change it. */
  lemma {:induction false} WholePrefix<V>(chain: seq<Window<V>>, rows: seq<Row<V>>, cut: nat)
    requires ValidChain(chain) && cut <= |rows|
    ensures Whole(chain, rows[..cut]) <= Whole(chain, rows)
  {
    if chain != [] {
      var w := chain[0];
      EmitConcat(w, rows[..cut], rows[cut..]);
      assert rows == rows[..cut] + rows[cut..];
      var a, b := Emit(w, rows[..cut]), Emit(w, rows);
      assert b[..|a|] == a;
      WholePrefix(chain[1..], b, |a|);
    }
  }

  /** Output row k of the chain is its whole-window evaluation on rows [k * S, k * S + W). */
  ghost predicate RowFromWindow<V>(chain: seq<Window<V>>, rows: seq<Row<V>>, k: nat)
    requires ValidChain(chain) && k < |Whole(chain, rows)|
  {
    var from := k * Stride(chain);
    && 0 <= from
    && from + Reach(chain) <= |rows|
    && Whole(chain, rows[from..from + Reach(chain)]) == [Whole(chain, rows)[k]]
  }

  /**
   A chain is one window operator with W = Reach and S = Stride, and each of its output rows is
   the whole-window evaluation of exactly W input rows, S rows after the previous one.
   */
  lemma ChainIsOneWindow<V(!new)>(chain: seq<Window<V>>, rows: seq<Row<V>>)
    requires ValidChain(chain)
    ensures Whole(chain, rows) == Emit(Fused(chain), rows)
    ensures forall k :: 0 <= k < |Whole(chain, rows)| ==> RowFromWindow(chain, rows, k)
  {
    SameCount(chain, rows);
    forall k | 0 <= k < |Whole(chain, rows)|
      ensures RowFromWindow(chain, rows, k) && Emit(Fused(chain), rows)[k] == Whole(chain, rows)[k]
    {
      OneRow(chain, rows, k);
      FusedRow(chain, rows, k);
    }
  }

  lemma FusedRow<V(!new)>(chain: seq<Window<V>>, rows: seq<Row<V>>, k: nat)
    requires ValidChain(chain) && k < |Whole(chain, rows)| && k < |Emit(Fused(chain), rows)|
    requires RowFromWindow(chain, rows, k)
    ensures Emit(Fused(chain), rows)[k] == Whole(chain, rows)[k]
  {
    var w := Fused(chain);
    var from := k * w.consume;
    EmitFrom(w, rows, k, from);
    FusedEval(chain, rows[from..from + w.need]);
  }

  lemma EmitFrom<V>(w: Window<V>, rows: seq<Row<V>>, k: nat, from: int)
    requires w.Valid() && k < |Emit(w, rows)| && from == k * w.consume
    ensures 0 <= from && from + w.need <= |rows|
    ensures Emit(w, rows)[k] == w.eval(rows[from..from + w.need])
  {
    EmitAt(w, rows, k);
    MulNonneg(k, w.consume);
  }

  lemma FusedEval<V(!new)>(chain: seq<Window<V>>, rows: seq<Row<V>>)
    requires ValidChain(chain)
    ensures Fused(chain).eval(rows) == First(chain, rows)
  {
  }

  lemma SameCount<V(!new)>(chain: seq<Window<V>>, rows: seq<Row<V>>)
    requires ValidChain(chain)
    ensures |Whole(chain, rows)| == |Emit(Fused(chain), rows)|
  {
    var out, w := Whole(chain, rows), Fused(chain);
    var emitted := Emit(w, rows);
    EmitLength(w, rows);
    WholeLength(chain, rows, |emitted|);
    PositionsBound(w.need, w.consume, |rows|, |emitted|);
    WholeLength(chain, rows, |out|);
    PositionsBound(w.need, w.consume, |rows|, |out|);
  }

  lemma OneRow<V>(chain: seq<Window<V>>, rows: seq<Row<V>>, k: nat)
    requires ValidChain(chain) && k < |Whole(chain, rows)|
    ensures RowFromWindow(chain, rows, k)
  {
    var s, r := Stride(chain), Reach(chain);
    MulNonneg(k, s);
    WholeLength(chain, rows, k);
    WholeDrop(chain, rows, k, k * s);
    var tail := rows[k * s..];
    WholePrefix(chain, tail, r);
    var one := tail[..r];
    assert one == rows[k * s..k * s + r];
    WholeLength(chain, one, 0);
    WholeLength(chain, one, 1);
    assert |Whole(chain, one)| == 1;
    assert Whole(chain, one)[0] == Whole(chain, tail)[0] == Whole(chain, rows)[k];
  }
}
