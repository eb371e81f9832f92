/** The snapshot-based undo history: a bounded undo stack, a redo stack that
    any new record clears, and the scene on show. The top of a stack is the
    last element of its sequence. */
module History {
  import opened Annotation

  /** The undo stack keeps at most this many snapshots. */
  const CAPACITY: nat := 10

  /** Pushes `s` on `stack` and, when that makes it longer than CAPACITY,
      drops the bottom (oldest) entry. */
  function PushBounded(stack: seq<Snapshot>, s: Snapshot): (r: seq<Snapshot>)
    ensures |stack| < CAPACITY ==> |r| == |stack| + 1
    ensures |stack| >= CAPACITY ==> |r| == |stack|
    ensures r == (stack + [s])[|stack| + 1 - |r|..]
  {
    var pushed := stack + [s];
    if |pushed| > CAPACITY then pushed[1..] else pushed
  }

  /** The newest CAPACITY entries of `s`, in their order. */
  function Newest(s: seq<Snapshot>): seq<Snapshot>
  {
    if |s| <= CAPACITY then s else s[|s| - CAPACITY..]
  }

  /** The undo stack after recording the snapshots `ss` one after the other. */
  function RecordAll(stack: seq<Snapshot>, ss: seq<Snapshot>): seq<Snapshot>
    decreases |ss|
  {
    if ss == [] then stack else PushBounded(RecordAll(stack, ss[..|ss| - 1]), ss[|ss| - 1])
  }

  /** Pushing on the newest entries of `x` gives the newest entries of `x`
      with the new snapshot on top. */
  lemma NewestPush(x: seq<Snapshot>, s: Snapshot)
    ensures PushBounded(Newest(x), s) == Newest(x + [s])
  {
    if |x| >= CAPACITY {
      var n := Newest(x);
      assert (n + [s])[1..] == (x + [s])[|x| + 1 - CAPACITY..];
    }
  }

  /** Any number of records leaves exactly the newest CAPACITY snapshots on
      the undo stack, oldest first: every older one has been evicted. */
  lemma {:induction false} RecordAllKeepsNewest(stack: seq<Snapshot>, ss: seq<Snapshot>)
    requires |stack| <= CAPACITY
    ensures RecordAll(stack, ss) == Newest(stack + ss)
    decreases |ss|
  {
    if ss == [] {
      assert stack + ss == stack;
      assert Newest(stack) == stack;
    } else {
      var init, last := ss[..|ss| - 1], ss[|ss| - 1];
      assert ss == init + [last];
      assert stack + ss == (stack + init) + [last];
      RecordAllKeepsNewest(stack, init);
      NewestPush(stack + init, last);
      calc {
        RecordAll(stack, ss);
        PushBounded(RecordAll(stack, init), last);
        PushBounded(Newest(stack + init), last);
        Newest((stack + init) + [last]);
      }
    }
  }

  /** The editor's history: undo stack, redo stack and the snapshot of the
      scene on show. */
  datatype History = History(undo: seq<Snapshot>, redo: seq<Snapshot>, shown: Snapshot)

  /** The invariant the editor keeps: the two stacks together never hold more
      than CAPACITY snapshots, so redo, which pushes on the undo stack without
      checking the bound, cannot overfill it either. */
  predicate Bounded(h: History)
  {
    |h.undo| + |h.redo| <= CAPACITY
  }

  /** Recording the scene on show after an action. */
  function RecordStep(h: History): (r: History)
    ensures r.redo == [] && r.shown == h.shown
    ensures |h.undo| <= CAPACITY ==> Bounded(r)
  {
    History(PushBounded(h.undo, h.shown), [], h.shown)
  }

  /** The history after `n` records of the same scene in a row, which is what
      one mouseup does when `n` mouseup listeners are registered. */
  function RecordTimes(h: History, n: nat): History
  {
    if n == 0 then h else RecordStep(RecordTimes(h, n - 1))
  }

  /** The undo button: on an empty undo stack nothing happens; otherwise the
      top snapshot moves to the redo stack and is put on show. */
  function UndoStep(h: History): (r: History)
    ensures |r.undo| + |r.redo| == |h.undo| + |h.redo|
    ensures h.undo != [] ==> r.shown == h.undo[|h.undo| - 1] && |r.redo| == |h.redo| + 1
  {
    if h.undo == [] then h
    else
      var top := h.undo[|h.undo| - 1];
      History(h.undo[..|h.undo| - 1], h.redo + [top], top)
  }

  /** The redo button, the mirror image of undo. */
  function RedoStep(h: History): (r: History)
    ensures |r.undo| + |r.redo| == |h.undo| + |h.redo|
    ensures h.redo != [] ==> r.shown == h.redo[|h.redo| - 1] && |r.undo| == |h.undo| + 1
  {
    if h.redo == [] then h
    else
      var top := h.redo[|h.redo| - 1];
      History(h.undo + [top], h.redo[..|h.redo| - 1], top)
  }

  /** A record pushes the scene on show as the new top, keeps the older
      entries in order (dropping only the bottom one when full), empties the
      redo stack whatever it held, and keeps the history bounded. */
  lemma RecordStepSpec(h: History)
    requires |h.undo| <= CAPACITY
    ensures var r := RecordStep(h);
      && r.redo == [] && r.shown == h.shown
      && |r.undo| == (if |h.undo| < CAPACITY then |h.undo| + 1 else CAPACITY)
      && r.undo[|r.undo| - 1] == h.shown
      && r.undo[..|r.undo| - 1] == (if |h.undo| < CAPACITY then h.undo else h.undo[1..])
      && Bounded(r)
  {
    var r := RecordStep(h);
    assert r.undo[..|r.undo| - 1] == (h.undo + [h.shown])[|h.undo| + 1 - |r.undo|..|h.undo|];
  }

  /** Undo with an empty undo stack, and redo with an empty redo stack,
      change nothing. */
  lemma EmptyStepsAreNoOps(h: History)
    ensures h.undo == [] ==> UndoStep(h) == h
    ensures h.redo == [] ==> RedoStep(h) == h
  {
  }

  /** Undo and redo move one snapshot between the stacks: the total is
      conserved, so both keep the history bounded. */
  lemma StepsConserveTotal(h: History)
    ensures |UndoStep(h).undo| + |UndoStep(h).redo| == |h.undo| + |h.redo|
    ensures |RedoStep(h).undo| + |RedoStep(h).redo| == |h.undo| + |h.redo|
    ensures Bounded(h) ==> Bounded(UndoStep(h)) && Bounded(RedoStep(h))
  {
  }

  /** Redo straight after undo gives both stacks back and shows the snapshot
      undo had shown. */
  lemma RedoAfterUndo(h: History)
    requires h.undo != []
    ensures RedoStep(UndoStep(h)) == h.(shown := h.undo[|h.undo| - 1])
  {
    assert h.undo[..|h.undo| - 1] + [h.undo[|h.undo| - 1]] == h.undo;
    assert (h.redo + [h.undo[|h.undo| - 1]])[..|h.redo|] == h.redo;
  }

  /** Undo straight after redo gives both stacks back. */
  lemma UndoAfterRedo(h: History)
    requires h.redo != []
    ensures UndoStep(RedoStep(h)) == h.(shown := h.redo[|h.redo| - 1])
  {
    assert h.redo[..|h.redo| - 1] + [h.redo[|h.redo| - 1]] == h.redo;
    assert (h.undo + [h.redo[|h.redo| - 1]])[..|h.undo|] == h.undo;
  }

  /** Snapshots are recorded after each action and undo shows the snapshot it
      pops, so an undo straight after an action leaves the scene as it is:
      it only moves that snapshot to the redo stack. */
  lemma UndoAfterRecord(h: History)
    requires |h.undo| <= CAPACITY
    ensures UndoStep(RecordStep(h)).shown == h.shown
    ensures UndoStep(RecordStep(h)).redo == [h.shown]
    ensures UndoStep(RecordStep(h)).undo == (if |h.undo| < CAPACITY then h.undo else h.undo[1..])
  {
    RecordStepSpec(h);
  }

  /** Redo straight after a record finds the redo stack empty and changes
      nothing: a mouse click on the redo button is preceded by the mouseup
      that records, so it never redoes anything. */
  lemma RedoAfterRecordIsNoOp(h: History)
    ensures RedoStep(RecordStep(h)) == RecordStep(h)
  {
  }

  /** `n` records of the scene on show push `n` copies of it through the
      bounded stack; after at least one, the redo stack is empty and the
      history is bounded. */
  lemma {:induction false} RecordTimesSpec(h: History, n: nat)
    requires |h.undo| <= CAPACITY
    ensures RecordTimes(h, n).undo == RecordAll(h.undo, seq(n, k => h.shown))
    ensures RecordTimes(h, n).shown == h.shown
    ensures RecordTimes(h, n).redo == if n == 0 then h.redo else []
    ensures |RecordTimes(h, n).undo| <= CAPACITY
  {
    if n > 0 {
      RecordTimesSpec(h, n - 1);
      var copies := seq(n, k => h.shown);
      assert copies[..n - 1] == seq(n - 1, k => h.shown);
      assert copies[n - 1] == h.shown;
    }
  }
}
