/** Incremental evaluation of a chain of operators along the time axis, over flat row buffers. */
module Stream {
  import opened Arith
  import opened Rows
  import opened Windows

  /** What a kernel makes of `used` rows: an error, or a number of output rows and their values. */
  datatype KernelResult<V> = Failed | Produced(rows: int, flat: seq<V>)

  datatype RunResult<V> = PartialRow | KernelFailed | RowMismatch(got: int) | Rows(flat: seq<V>)

  class Stage<V(!new)> {
    const rowSize: nat
    const need: nat
    const consume: nat
    const kernel: (nat, seq<V>) -> KernelResult<V>
    var pending: seq<V>

    constructor (rowSize: nat, need: nat, consume: nat, kernel: (nat, seq<V>) -> KernelResult<V>)
      ensures this.rowSize == rowSize && this.need == need && this.consume == consume
      ensures this.kernel == kernel && pending == []
    {
      this.rowSize, this.need, this.consume, this.kernel := rowSize, need, consume, kernel;
      pending := [];
    }

    predicate Configured() {
      rowSize > 0 && 0 < consume <= need
    }

    /** Rows that fit whole windows out of `have` buffered rows. */
    static function Used(need: nat, consume: nat, have: nat): (used: nat)
      requires 0 < consume <= need <= have
      ensures need <= used <= have
    {
      LastWindow(need, consume, have, need + (Positions(need, consume, have) - 1) * consume);
      need + (Positions(need, consume, have) - 1) * consume
    }

    method Run(rows: seq<V>) returns (r: RunResult<V>)
      requires Configured()
      modifies this`pending
      ensures r == RunSpec(this, old(pending), rows).0
      ensures pending == RunSpec(this, old(pending), rows).1
      ensures r.PartialRow? <==> |rows| % rowSize != 0
      ensures r.PartialRow? ==> pending == old(pending)
      ensures r.KernelFailed? || r.RowMismatch? ==> pending == old(pending) + rows
      ensures !r.PartialRow? && (old(|pending|) + |rows|) / rowSize < need ==>
        r == Rows([]) && pending == old(pending) + rows
    {
      if |rows| % rowSize != 0 {
        return PartialRow;
      }
      pending := pending + rows;
      var have := |pending| / rowSize;
      if have < need {
        return Rows([]);
      }
      var emit := (have - need) / consume + 1;
      var used := need + (emit - 1) * consume;
      LastWindow(need, consume, have, used);
      WholeRowsFit(|pending|, rowSize, used);
      match kernel(used, pending[..used * rowSize]) {
        case Failed => return KernelFailed;
        case Produced(got, flat) =>
          if got != emit {
            return RowMismatch(got);
          }
          RetiredFit(need, consume, have, emit);
          WholeRowsFit(|pending|, rowSize, emit * consume);
          pending := pending[emit * consume * rowSize..];
          return Rows(flat);
      }
    }
  }

  lemma WholeRowsFit(size: nat, rowSize: nat, rows: nat)
    requires rowSize > 0 && rows <= size / rowSize
    ensures 0 <= rows * rowSize <= size
  {
    assert size == rowSize * (size / rowSize) + size % rowSize;
    MulMono(rows, size / rowSize, rowSize);
    MulNonneg(rows, rowSize);
  }

  lemma RetiredFit(need: nat, consume: nat, have: nat, emit: int)
    requires 0 < consume <= need <= have && emit == Positions(need, consume, have)
    ensures 0 <= emit * consume <= have
  {
    PositionsBound(need, consume, have, emit - 1);
    MulDist(emit, 1, consume);
    MulNonneg(emit, consume);
  }

  /** The flat transition of one stage: result and new pending buffer. */
  function RunSpec<V(!new)>(st: Stage<V>, pending: seq<V>, rows: seq<V>): (RunResult<V>, seq<V>)
    requires st.Configured()
  {
    if |rows| % st.rowSize != 0 then (PartialRow, pending) else Evaluate(st, pending + rows)
  }

  /** The same on the buffer as it stands once the new rows have joined it. */
  function Evaluate<V(!new)>(st: Stage<V>, all: seq<V>): (RunResult<V>, seq<V>)
    requires st.Configured()
  {
    var have := |all| / st.rowSize;
    if have < st.need then (Rows([]), all) else
      var emit := Positions(st.need, st.consume, have);
      var used := Stage<V>.Used(st.need, st.consume, have);
      WholeRowsFit(|all|, st.rowSize, used);
      match st.kernel(used, all[..used * st.rowSize])
      case Failed => (KernelFailed, all)
      case Produced(got, flat) =>
        if got != emit then (RowMismatch(got), all) else
          RetiredFit(st.need, st.consume, have, emit);
          WholeRowsFit(|all|, st.rowSize, emit * st.consume);
          (Rows(flat), all[emit * st.consume * st.rowSize..])
  }

  /**
   The kernel of a stage computes a window operator: on every whole number of rows it produces
   one row of `outSize` values per window position, each from its own window alone.
   */
  ghost predicate Computes<V(!new)>(st: Stage<V>, w: Window<V>, outSize: nat) {
    && st.Configured() && outSize > 0
    && w.need == st.need && w.consume == st.consume
    && (forall rows: seq<Row<V>> {:trigger w.eval(rows)} :: |rows| == w.need && AllWide(rows, st.rowSize) ==>
      |w.eval(rows)| == outSize)
    && (forall flat: seq<V> {:trigger KernelOn(st, w, flat)} ::
          |flat| % st.rowSize == 0 && |flat| / st.rowSize >= st.need ==> KernelOn(st, w, flat))
  }

  ghost predicate KernelOn<V(!new)>(st: Stage<V>, w: Window<V>, flat: seq<V>)
    requires st.Configured() && w.Valid()
  {
    var out := Emit(w, Split(flat, st.rowSize));
    st.kernel(|flat| / st.rowSize, flat) == Produced(|out|, Join(out))
  }

  lemma {:induction false} EmitWide<V(!new)>(w: Window<V>, rows: seq<Row<V>>, rowSize: nat, outSize: nat)
    requires w.Valid() && AllWide(rows, rowSize)
    requires forall r: seq<Row<V>> :: |r| == w.need && AllWide(r, rowSize) ==> |w.eval(r)| == outSize
    ensures AllWide(Emit(w, rows), outSize)
    decreases |rows|
  {
    if |rows| >= w.need {
      EmitWide(w, rows[w.consume..], rowSize, outSize);
    }
  }

  /** A stage whose kernel computes a window emits that window's rows and keeps its carry. */
  lemma RunIsWindow<V(!new)>(st: Stage<V>, w: Window<V>, outSize: nat, pending: seq<V>, rows: seq<V>)
    requires Computes(st, w, outSize)
    requires |pending| % st.rowSize == 0 && |rows| % st.rowSize == 0
    ensures var all := Split(pending, st.rowSize) + Split(rows, st.rowSize);
            var (r, rest) := RunSpec(st, pending, rows);
            && r == Rows(Join(Emit(w, all)))
            && Split(rest, st.rowSize) == Carry(w, all)
            && |rest| % st.rowSize == 0
  {
    SplitConcat(pending, rows, st.rowSize);
    WholeSum(|pending|, |rows|, st.rowSize);
    var flat := pending + rows;
    assert |flat| == |pending| + |rows|;
    EvaluateIsWindow(st, w, outSize, flat);
  }

  lemma EvaluateIsWindow<V(!new)>(st: Stage<V>, w: Window<V>, outSize: nat, flat: seq<V>)
    requires Computes(st, w, outSize) && |flat| % st.rowSize == 0
    ensures var all := Split(flat, st.rowSize);
            var (r, rest) := Evaluate(st, flat);
            && r == Rows(Join(Emit(w, all)))
            && Split(rest, st.rowSize) == Carry(w, all)
            && |rest| % st.rowSize == 0
  {
    if |flat| / st.rowSize >= st.need {
      KernelUsed(st, w, outSize, flat);
      Retire(st, w, flat);
    } else {
      SplitLength(flat, st.rowSize);
    }
  }

  lemma KernelUsed<V(!new)>(st: Stage<V>, w: Window<V>, outSize: nat, flat: seq<V>)
    requires Computes(st, w, outSize)
    requires |flat| % st.rowSize == 0 && |flat| / st.rowSize >= st.need
    ensures var have := |flat| / st.rowSize;
            var used := Stage<V>.Used(st.need, st.consume, have);
            && 0 <= used * st.rowSize <= |flat|
            && st.kernel(used, flat[..used * st.rowSize])
               == Produced(Positions(st.need, st.consume, have), Join(Emit(w, Split(flat, st.rowSize))))
  {
    var n, have := st.rowSize, |flat| / st.rowSize;
    var used := Stage<V>.Used(st.need, st.consume, have);
    WholeRowsFit(|flat|, n, used);
    var cut := flat[..used * n];
    DivUnique(used * n, n, used, 0);
    assert KernelOn(st, w, cut);
    SplitLength(flat, n);
    SplitCut(flat, n, used);
    EmitUsed(w, Split(flat, n), used);
    EmitLength(w, Split(flat, n));
  }

  lemma Retire<V(!new)>(st: Stage<V>, w: Window<V>, flat: seq<V>)
    requires st.Configured() && w.need == st.need && w.consume == st.consume
    requires |flat| % st.rowSize == 0 && |flat| / st.rowSize >= st.need
    ensures var from := Positions(st.need, st.consume, |flat| / st.rowSize) * st.consume * st.rowSize;
            && 0 <= from <= |flat|
            && Split(flat[from..], st.rowSize) == Carry(w, Split(flat, st.rowSize))
            && |flat[from..]| % st.rowSize == 0
  {
    var n, have := st.rowSize, |flat| / st.rowSize;
    var emit := Positions(st.need, st.consume, have);
    RetiredFit(st.need, st.consume, have, emit);
    RetireCut(flat, n, emit * st.consume);
    SplitLength(flat, n);
    EmitLength(w, Split(flat, n));
  }

  /** The rows a stage passes on are whole rows for the next one. */
  lemma PassedOnWhole<V(!new)>(st: Stage<V>, w: Window<V>, outSize: nat, rows: seq<Row<V>>)
    requires Computes(st, w, outSize) && AllWide(rows, st.rowSize)
    ensures Split(Join(Emit(w, rows)), outSize) == Emit(w, rows)
    ensures |Join(Emit(w, rows))| % outSize == 0
  {
    EmitWide(w, rows, st.rowSize, outSize);
    SplitJoin(Emit(w, rows), outSize);
    DivUnique(|Join(Emit(w, rows))|, outSize, |Emit(w, rows)|, 0);
  }

  lemma RetireCut<V>(flat: seq<V>, n: nat, k: nat)
    requires n > 0 && |flat| % n == 0 && k <= |flat| / n
    ensures 0 <= k * n <= |flat| && k <= |Split(flat, n)|
    ensures Split(flat[k * n..], n) == Split(flat, n)[k..]
    ensures |flat[k * n..]| % n == 0
  {
    WholeRowsFit(|flat|, n, k);
    SplitCut(flat, n, k);
    RetireSize(|flat|, n, k);
  }

  lemma RetireSize(size: nat, n: nat, k: nat)
    requires n > 0 && size % n == 0
    ensures (size - k * n) % n == 0
  {
    var q := size / n;
    MulDist(q, k, n);
    DivUnique(size - k * n, n, q - k, 0);
  }

  lemma WholeSum(a: nat, b: nat, n: nat)
    requires n > 0 && a % n == 0 && b % n == 0
    ensures (a + b) % n == 0
  {
    MulDist(a / n, b / n, n);
    DivUnique(a + b, n, a / n + b / n, 0);
  }

  // ---------------------------------------------------------------- the stream

  predicate AllConfigured<V(!new)>(stages: seq<Stage<V>>) {
    forall i :: 0 <= i < |stages| ==> stages[i].Configured()
  }

  /** The flat transition of a chain from stage i on, stopping at the first stage with nothing to pass on. */
  function WriteSpec<V(!new)>(stages: seq<Stage<V>>, pend: seq<seq<V>>, i: nat, cur: seq<V>)
    : (r: (RunResult<V>, seq<seq<V>>))
    requires |pend| == |stages| && AllConfigured(stages) && i <= |stages|
    ensures |r.1| == |stages|
    decreases |stages| - i
  {
    if i == |stages| then (Rows(cur), pend) else
      var (r, p) := RunSpec(stages[i], pend[i], cur);
      if !r.Rows? || r.flat == [] then (r, pend[i := p])
      else WriteSpec(stages, pend[i := p], i + 1, r.flat)
  }

  class Stream<V(!new)> {
    const stages: seq<Stage<V>>

    constructor (stages: seq<Stage<V>>)
      ensures this.stages == stages
    {
      this.stages := stages;
    }

    ghost predicate Valid() {
      && stages != []
      && AllConfigured(stages)
      && (forall i, j :: 0 <= i < j < |stages| ==> stages[i] != stages[j])
    }

    ghost function Pendings(): (p: seq<seq<V>>)
      reads stages
      ensures |p| == |stages|
    {
      seq(|stages|, i requires 0 <= i < |stages| reads stages => stages[i].pending)
    }

    method Write(rows: seq<V>) returns (r: RunResult<V>)
      requires Valid()
      modifies stages
      ensures (r, Pendings()) == WriteSpec(stages, old(Pendings()), 0, rows)
    {
      ghost var goal := WriteSpec(stages, Pendings(), 0, rows);
      var cur := rows;
      for i := 0 to |stages|
        invariant WriteSpec(stages, Pendings(), i, cur) == goal
      {
        ghost var before := Pendings();
        r := stages[i].Run(cur);
        assert Pendings() == before[i := stages[i].pending];
        if !r.Rows? || r.flat == [] {
          return;
        }
        cur := r.flat;
      }
      return Rows(cur);
    }

    method Reset()
      requires Valid()
      modifies stages
      ensures Pendings() == seq(|stages|, _ => [])
    {
      for i := 0 to |stages|
        invariant forall j :: 0 <= j < i ==> stages[j].pending == []
      {
        stages[i].pending := [];
      }
    }
  }

  /** Stage i computes chain[i] and passes rows of widths[i + 1] values to the next stage. */
  ghost predicate StreamComputes<V(!new)>(stages: seq<Stage<V>>, chain: seq<Window<V>>, widths: seq<nat>) {
    && |chain| == |stages| && |widths| == |stages| + 1
    && ValidChain(chain) && AllConfigured(stages)
    && (forall i {:trigger Computes(stages[i], chain[i], widths[i + 1])} :: 0 <= i < |stages| ==>
          Computes(stages[i], chain[i], widths[i + 1]) && stages[i].rowSize == widths[i])
  }

  /** The buffers hold these rows and no part of another. */
  ghost predicate Buffers<V(!new)>(pend: seq<seq<V>>, widths: seq<nat>, held: seq<seq<Row<V>>>) {
    && |pend| == |held| <= |widths|
    && (forall i :: 0 <= i < |pend| ==>
          widths[i] > 0 && |pend[i]| % widths[i] == 0 && Split(pend[i], widths[i]) == held[i])
  }

  /** The flat stream feeds the chain of windows; stopping early loses nothing. */
  lemma {:induction false} WriteIsFeed<V(!new)>(stages: seq<Stage<V>>, chain: seq<Window<V>>, widths: seq<nat>,
                                                pend: seq<seq<V>>, held: seq<seq<Row<V>>>, i: nat, cur: seq<V>)
    requires StreamComputes(stages, chain, widths) && i <= |stages|
    requires Buffers(pend, widths, held) && Waiting(chain, held)
    requires widths[i] > 0 && |cur| % widths[i] == 0
    ensures var (r, pend') := WriteSpec(stages, pend, i, cur);
            var (held', out) := FeedFrom(chain, held, i, Split(cur, widths[i]));
            r == Rows(Join(out)) && Buffers(pend', widths, held')
    decreases |stages| - i
  {
    if i == |stages| {
      JoinSplit(cur, widths[i]);
    } else {
      var (r, p) := RunSpec(stages[i], pend[i], cur);
      StageStep(stages, chain, widths, pend[i], held[i], i, cur);
      var held' := held[i := Carry(chain[i], held[i] + Split(cur, widths[i]))];
      if r.flat == [] {
        FeedFromNothing(chain, held', i + 1);
      } else {
        WriteIsFeed(stages, chain, widths, pend[i := p], held', i + 1, r.flat);
      }
    }
  }

  /** One stage of the flat stream, seen as rows. */
  lemma StageStep<V(!new)>(stages: seq<Stage<V>>, chain: seq<Window<V>>, widths: seq<nat>,
                           pending: seq<V>, held: seq<Row<V>>, i: nat, cur: seq<V>)
    requires StreamComputes(stages, chain, widths) && i < |stages|
    requires widths[i] > 0 && |pending| % widths[i] == 0 && Split(pending, widths[i]) == held
    requires |cur| % widths[i] == 0
    ensures widths[i + 1] > 0
    ensures var all := held + Split(cur, widths[i]);
            var (r, p) := RunSpec(stages[i], pending, cur);
            && r == Rows(Join(Emit(chain[i], all))) && (r.flat == [] <==> Emit(chain[i], all) == [])
            && |r.flat| % widths[i + 1] == 0 && Split(r.flat, widths[i + 1]) == Emit(chain[i], all)
            && |p| % widths[i] == 0 && Split(p, widths[i]) == Carry(chain[i], all)
  {
    var st, w := stages[i], chain[i];
    assert Computes(st, w, widths[i + 1]) && st.rowSize == widths[i];
    RunIsWindow(st, w, widths[i + 1], pending, cur);
    SplitLength(pending, widths[i]);
    SplitLength(cur, widths[i]);
    PassedOnWhole(st, w, widths[i + 1], held + Split(cur, widths[i]));
  }

  // ---------------------------------------------------------------- whole runs

  /** Successive writes to one stream; the rows returned so far, or the first error. */
  function WriteAll<V(!new)>(stages: seq<Stage<V>>, pend: seq<seq<V>>, chunks: seq<seq<V>>): RunResult<V>
    requires |pend| == |stages| && AllConfigured(stages)
    decreases |chunks|
  {
    if chunks == [] then Rows([]) else
      var (r, pend') := WriteSpec(stages, pend, 0, chunks[0]);
      if !r.Rows? then r else
        match WriteAll(stages, pend', chunks[1..])
        case Rows(more) => Rows(r.flat + more)
        case failure => failure
  }

  ghost predicate WholeRows<V>(chunks: seq<seq<V>>, width: nat)
    requires width > 0
  {
    forall i :: 0 <= i < |chunks| ==> |chunks[i]| % width == 0
  }

  /**
   However the input rows are split into Write calls on a fresh or reset stream, the returned
   values together are those of running every operator over the whole input, and no call fails.
   */
  lemma StreamIsWholeModel<V(!new)>(stages: seq<Stage<V>>, chain: seq<Window<V>>, widths: seq<nat>, chunks: seq<seq<V>>)
    requires StreamComputes(stages, chain, widths) && stages != []
    requires widths[0] > 0 && WholeRows(chunks, widths[0])
    ensures WriteAll(stages, seq(|stages|, _ => []), chunks)
         == Rows(Join(Whole(chain, Split(Join(chunks), widths[0]))))
  {
    var none: seq<seq<V>> := seq(|stages|, _ => []);
    HeldNothing(chain);
    FreshBuffers(stages, chain, widths, none);
    WriteAllExtends(stages, chain, widths, [], none, chunks);
    var rows := Split(Join(chunks), widths[0]);
    assert [] + rows == rows;
  }

  lemma FreshBuffers<V(!new)>(stages: seq<Stage<V>>, chain: seq<Window<V>>, widths: seq<nat>, none: seq<seq<V>>)
    requires StreamComputes(stages, chain, widths) && widths[0] > 0
    requires none == seq(|stages|, _ => [])
    ensures Buffers(none, widths, seq(|chain|, _ => []))
  {
    forall i | 0 <= i < |stages| ensures widths[i] > 0 && |none[i]| % widths[i] == 0 {
      assert Computes(stages[i], chain[i], widths[i + 1]);
      DivUnique(0, widths[i], 0, 0);
    }
  }

  lemma {:induction false} WriteAllExtends<V(!new)>(stages: seq<Stage<V>>, chain: seq<Window<V>>, widths: seq<nat>,
                                                    seen: seq<Row<V>>, pend: seq<seq<V>>, chunks: seq<seq<V>>)
    requires StreamComputes(stages, chain, widths)
    requires widths[0] > 0 && WholeRows(chunks, widths[0])
    requires Buffers(pend, widths, Held(chain, seen))
    ensures var r := WriteAll(stages, pend, chunks);
            && r.Rows?
            && Join(Whole(chain, seen)) + r.flat == Join(Whole(chain, seen + Split(Join(chunks), widths[0])))
    decreases |chunks|
  {
    var n := widths[0];
    if chunks == [] {
      assert seen + Split(Join(chunks), n) == seen;
      assert Join(Whole(chain, seen)) + [] == Join(Whole(chain, seen));
    } else {
      var rows := Split(chunks[0], n);
      OneWrite(stages, chain, widths, seen, pend, chunks[0]);
      var (r, pend') := WriteSpec(stages, pend, 0, chunks[0]);
      WriteAllExtends(stages, chain, widths, seen + rows, pend', chunks[1..]);
      SplitConcat(chunks[0], Join(chunks[1..]), n);
      ConcatAssoc(seen, rows, Split(Join(chunks[1..]), n));
      var more := WriteAll(stages, pend', chunks[1..]).flat;
      ConcatAssoc(Join(Whole(chain, seen)), r.flat, more);
    }
  }

  lemma OneWrite<V(!new)>(stages: seq<Stage<V>>, chain: seq<Window<V>>, widths: seq<nat>,
                          seen: seq<Row<V>>, pend: seq<seq<V>>, chunk: seq<V>)
    requires StreamComputes(stages, chain, widths)
    requires widths[0] > 0 && |chunk| % widths[0] == 0
    requires Buffers(pend, widths, Held(chain, seen))
    ensures var (r, pend') := WriteSpec(stages, pend, 0, chunk);
            var now := seen + Split(chunk, widths[0]);
            && r.Rows?
            && Join(Whole(chain, seen)) + r.flat == Join(Whole(chain, now))
            && Buffers(pend', widths, Held(chain, now))
  {
    var rows := Split(chunk, widths[0]);
    HeldWaits(chain, seen);
    WriteIsFeed(stages, chain, widths, pend, Held(chain, seen), 0, chunk);
    FeedFromIsFeed(chain, Held(chain, seen), 0, rows);
    assert chain[0..] == chain && Held(chain, seen)[0..] == Held(chain, seen);
    FeedExtends(chain, seen, rows);
    var (held, out) := Feed(chain, Held(chain, seen), rows);
    assert Held(chain, seen)[..0] + held == held;
    JoinConcat(Whole(chain, seen), out);
  }

  // ---------------------------------------------------------------- the whole model at once

  /** Running every kernel once, each on everything the one before it produced. */
  function Invoke<V(!new)>(stages: seq<Stage<V>>, cur: seq<V>): RunResult<V>
    requires AllConfigured(stages)
  {
    if stages == [] then Rows(cur) else
      match stages[0].kernel(|cur| / stages[0].rowSize, cur)
      case Failed => KernelFailed
      case Produced(_, flat) => Invoke(stages[1..], flat)
  }

  lemma RestComputes<V(!new)>(stages: seq<Stage<V>>, chain: seq<Window<V>>, widths: seq<nat>)
    requires StreamComputes(stages, chain, widths) && stages != []
    ensures StreamComputes(stages[1..], chain[1..], widths[1..])
    ensures Computes(stages[0], chain[0], widths[1]) && stages[0].rowSize == widths[0] > 0
  {
    var first := 0;
    assert Computes(stages[first], chain[first], widths[first + 1]);
    forall i | 0 <= i < |stages| - 1
      ensures Computes(stages[1..][i], chain[1..][i], widths[1..][i + 1]) && stages[1..][i].rowSize == widths[1..][i]
    {
      var next := i + 1;
      assert Computes(stages[next], chain[next], widths[next + 1]);
    }
  }

  lemma NothingFromNothing<V>(chain: seq<Window<V>>, rows: seq<Row<V>>)
    requires ValidChain(chain) && chain != [] && Whole(chain, rows) != []
    ensures |rows| >= chain[0].need
  {
    if |rows| < chain[0].need {
      WholeLength(chain[1..], [], 0);
    }
  }

  /** With enough rows for one output row, the composed windows are what the kernels compute on the whole input. */
  lemma {:induction false} WholeIsInvoke<V(!new)>(stages: seq<Stage<V>>, chain: seq<Window<V>>, widths: seq<nat>,
      cur: seq<V>)
    requires StreamComputes(stages, chain, widths) && widths[0] > 0 && |cur| % widths[0] == 0
    requires Whole(chain, Split(cur, widths[0])) != []
    ensures Invoke(stages, cur) == Rows(Join(Whole(chain, Split(cur, widths[0]))))
    decreases |stages|
  {
    var n := widths[0];
    if stages == [] {
      JoinSplit(cur, n);
    } else {
      var rows := Split(cur, n);
      RestComputes(stages, chain, widths);
      SplitLength(cur, n);
      NothingFromNothing(chain, rows);
      assert KernelOn(stages[0], chain[0], cur);
      PassedOnWhole(stages[0], chain[0], widths[1], rows);
      WholeIsInvoke(stages[1..], chain[1..], widths[1..], Join(Emit(chain[0], rows)));
    }
  }

  /** Rows from..to of a buffer of whole rows. */
  function RowsOf<V>(flat: seq<V>, n: nat, from: nat, to: nat): seq<V>
    requires n > 0 && from <= to <= |flat| / n
  {
    WholeRowsFit(|flat|, n, to);
    MulMono(from, to, n);
    MulNonneg(from, n);
    flat[from * n..to * n]
  }

  lemma SplitRowsOf<V>(flat: seq<V>, n: nat, from: nat, to: nat)
    requires n > 0 && from <= to <= |flat| / n
    ensures to <= |Split(flat, n)| && Split(RowsOf(flat, n, from, to), n) == Split(flat, n)[from..to]
    ensures |RowsOf(flat, n, from, to)| % n == 0
  {
    WholeRowsFit(|flat|, n, to);
    MulMono(from, to, n);
    MulNonneg(from, n);
    SplitCut(flat, n, to);
    SplitCut(flat[..to * n], n, from);
    assert flat[..to * n][from * n..] == RowsOf(flat, n, from, to);
    MulDist(to, from, n);
    DivUnique(to * n - from * n, n, to - from, 0);
  }

  /** Row k of the composed windows is what running every kernel once on the rows of its own window gives. */
  lemma RowIsInvoke<V(!new)>(stages: seq<Stage<V>>, chain: seq<Window<V>>, widths: seq<nat>, flat: seq<V>, k: nat,
      from: nat)
    requires StreamComputes(stages, chain, widths) && widths[0] > 0
    requires k < |Whole(chain, Split(flat, widths[0]))| && from == k * Stride(chain)
    ensures from + Reach(chain) <= |flat| / widths[0]
    ensures Invoke(stages, RowsOf(flat, widths[0], from, from + Reach(chain)))
      == Rows(Whole(chain, Split(flat, widths[0]))[k])
  {
    var n, rows := widths[0], Split(flat, widths[0]);
    SplitLength(flat, n);
    OneRow(chain, rows, k);
    SplitRowsOf(flat, n, from, from + Reach(chain));
    WholeIsInvoke(stages, chain, widths, RowsOf(flat, n, from, from + Reach(chain)));
    var row := Whole(chain, rows)[k];
    assert Join([row]) == row by {
      assert [row][1..] == [];
      assert Join<V>([]) == [];
    }
  }

  /** The stream against the windowed model: row k of what it has written is made from rows k * S to k * S + W alone. */
  lemma StreamIsWindowed<V(!new)>(stages: seq<Stage<V>>, chain: seq<Window<V>>, widths: seq<nat>, chunks: seq<seq<V>>,
                                  k: nat, from: nat)
    requires StreamComputes(stages, chain, widths) && stages != []
    requires widths[0] > 0 && WholeRows(chunks, widths[0])
    requires from == k * Stride(chain) && from + Reach(chain) <= |Join(chunks)| / widths[0]
    ensures var n, flat := widths[0], Join(chunks);
            var rows := Whole(chain, Split(flat, n));
            && WriteAll(stages, seq(|stages|, _ => []), chunks) == Rows(Join(rows))
            && k < |rows|
            && Invoke(stages, RowsOf(flat, n, from, from + Reach(chain))) == Rows(rows[k])
  {
    StreamIsWholeModel(stages, chain, widths, chunks);
    SplitLength(Join(chunks), widths[0]);
    WholeLength(chain, Split(Join(chunks), widths[0]), k);
    RowIsInvoke(stages, chain, widths, Join(chunks), k, from);
  }
}
