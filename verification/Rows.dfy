/** Flat row-major buffers seen as sequences of equally wide rows. */
module Rows {
  import opened Arith

  /** The whole rows of a flat buffer, oldest first; a partial last row is not a row. */
  function Split<V>(flat: seq<V>, width: nat): seq<seq<V>>
    requires width > 0
    decreases |flat|
  {
    if |flat| < width then [] else [flat[..width]] + Split(flat[width..], width)
  }

  function Join<V>(rows: seq<seq<V>>): seq<V> {
    if rows == [] then [] else rows[0] + Join(rows[1..])
  }

  ghost predicate AllWide<V>(rows: seq<seq<V>>, width: nat) {
    forall i :: 0 <= i < |rows| ==> |rows[i]| == width
  }

  lemma {:induction false} SplitLength<V>(flat: seq<V>, width: nat)
    requires width > 0
    ensures |Split(flat, width)| == |flat| / width
    ensures AllWide(Split(flat, width), width)
    decreases |flat|
  {
    if |flat| < width {
      DivUnique(|flat|, width, 0, |flat|);
    } else {
      var rest := flat[width..];
      SplitLength(rest, width);
      DivStep(|flat|, width);
      assert Split(flat, width) == [flat[..width]] + Split(rest, width);
    }
  }

  /** Cutting a buffer at a row boundary cuts its rows there. */
  lemma {:induction false} SplitCut<V>(flat: seq<V>, width: nat, k: nat)
    requires width > 0 && k * width <= |flat|
    ensures k <= |Split(flat, width)|
    ensures Split(flat[..k * width], width) == Split(flat, width)[..k]
    ensures Split(flat[k * width..], width) == Split(flat, width)[k..]
    decreases k
  {
    if k == 0 {
      assert flat[0 * width..] == flat;
    } else {
      assert k * width == width + (k - 1) * width;
      var rest := flat[width..];
      SplitCut(rest, width, k - 1);
      assert flat[..k * width][width..] == rest[..(k - 1) * width];
      assert flat[..k * width][..width] == flat[..width];
      assert flat[k * width..] == rest[(k - 1) * width..];
    }
  }

  lemma {:induction false} SplitConcat<V>(a: seq<V>, b: seq<V>, width: nat)
    requires width > 0 && |a| % width == 0
    ensures Split(a + b, width) == Split(a, width) + Split(b, width)
  {
    var k := |a| / width;
    assert |a| == k * width;
    SplitCut(a + b, width, k);
    assert (a + b)[..k * width] == a && (a + b)[k * width..] == b;
    var s := Split(a + b, width);
    assert s == s[..k] + s[k..];
  }

  lemma ConcatAssoc<V>(a: seq<V>, b: seq<V>, c: seq<V>)
    ensures a + (b + c) == a + b + c
  {
  }

  lemma {:induction false} JoinConcat<V>(a: seq<seq<V>>, b: seq<seq<V>>)
    ensures Join(a + b) == Join(a) + Join(b)
  {
    if a == [] {
      assert a + b == b;
      assert Join(a) + Join(b) == Join(b);
    } else {
      JoinConcat(a[1..], b);
      JoinCons(a + b, a[0], a[1..] + b);
      ConcatAssoc(a[0], Join(a[1..]), Join(b));
    }
  }

  lemma JoinCons<V>(rows: seq<seq<V>>, first: seq<V>, rest: seq<seq<V>>)
    requires rows == [first] + rest
    ensures Join(rows) == first + Join(rest)
  {
    assert rows[1..] == rest;
  }

  lemma {:induction false} SplitJoin<V>(rows: seq<seq<V>>, width: nat)
    requires width > 0 && AllWide(rows, width)
    ensures Split(Join(rows), width) == rows
    ensures |Join(rows)| == |rows| * width
  {
    if rows != [] {
      SplitJoin(rows[1..], width);
      assert Join(rows)[..width] == rows[0];
      assert Join(rows)[width..] == Join(rows[1..]);
      assert |rows| * width == width + (|rows| - 1) * width;
    }
  }

  lemma {:induction false} JoinSplit<V>(flat: seq<V>, width: nat)
    requires width > 0 && |flat| % width == 0
    ensures Join(Split(flat, width)) == flat
    decreases |flat|
  {
    if |flat| >= width {
      DivStep(|flat|, width);
      JoinSplit(flat[width..], width);
    } else {
      assert |flat| % width == |flat|;
    }
  }

  lemma JoinCut<V>(flat: seq<V>, width: nat, from: nat, to: nat)
    requires width > 0 && from <= to && to * width <= |flat|
    ensures 0 <= from * width <= to * width && to <= |Split(flat, width)|
    ensures Join(Split(flat, width)[from..to]) == flat[from * width..to * width]
  {
    MulNonneg(from, width);
    MulMono(from, to, width);
    SplitCut(flat, width, to);
    var head := flat[..to * width];
    SplitCut(head, width, from);
    assert Split(flat, width)[from..to] == Split(head, width)[from..];
    var piece := head[from * width..];
    assert piece == flat[from * width..to * width];
    MulDist(to, from, width);
    DivUnique(|piece|, width, to - from, 0);
    JoinSplit(piece, width);
  }

  /** A buffer whose consecutive pieces are the given rows is their concatenation. */
  lemma {:induction false} JoinPieces<V>(flat: seq<V>, rows: seq<seq<V>>, width: nat)
    requires |flat| == |rows| * width
    requires forall k :: 0 <= k < |rows| ==> PieceIs(flat, width, k, rows[k])
    ensures flat == Join(rows)
  {
    if rows != [] {
      MulDist(|rows|, 1, width);
      MulNonneg(|rows| - 1, width);
      assert PieceIs(flat, width, 0, rows[0]);
      var rest := flat[width..];
      forall k | 0 <= k < |rows| - 1 ensures PieceIs(rest, width, k, rows[1..][k]) {
        assert PieceIs(flat, width, k + 1, rows[k + 1]);
        PieceShift(flat, width, k, rows[k + 1]);
      }
      JoinPieces(rest, rows[1..], width);
      assert flat == flat[..width] + rest;
    }
  }

  ghost predicate PieceIs<V>(flat: seq<V>, width: nat, k: nat, row: seq<V>) {
    var from := k * width;
    0 <= from && from + width <= |flat| && flat[from..from + width] == row
  }

  lemma PieceShift<V>(flat: seq<V>, width: nat, k: nat, row: seq<V>)
    requires width <= |flat| && PieceIs(flat, width, k + 1, row)
    ensures PieceIs(flat[width..], width, k, row)
  {
    MulDist(k, 1, width);
    MulNonneg(k, width);
    var from := k * width;
    assert flat[width..][from..from + width] == flat[width + from..width + from + width];
  }
}
