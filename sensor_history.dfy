/** The edit history of a sensor (IndiaTango/Models/Sensor.cs): an undo
    stack whose top is the current state, and a redo stack of states that
    were undone. Both stacks are sequences listed bottom first, so the top
    is the last element. The `Sensor` class performs these operations in
    place and is specified against the functions here. */
module SensorHistory {
  import opened Common
  import opened SensorStates

  /** `AddState` keeps at most this many states on the undo stack. */
  const UndoDepth: nat := 5

  datatype History = History(undo: seq<SensorState>, redo: seq<SensorState>)

  /** `CurrentState`: the undo top, or the raw state when nothing is on the undo stack. */
  function Current(h: History, raw: SensorState): SensorState
  {
    if |h.undo| > 0 then Last(h.undo) else raw
  }

  /** Every version visible through undo and redo, oldest first: the undo
      stack from the bottom, then the redo stack from its top down. */
  function Timeline(h: History): seq<SensorState>
  {
    h.undo + Reverse(h.redo)
  }

  /** `AddState(newState)`: when the undo stack already holds `UndoDepth`
      states the bottom one is dropped; then the new state is pushed and the
      redo stack is cleared. */
  function Commit(h: History, s: SensorState): (r: History)
    ensures r.redo == [] && |r.undo| > 0 && Last(r.undo) == s
    ensures |h.undo| != UndoDepth ==> r.undo[..|r.undo| - 1] == h.undo
    ensures |h.undo| == UndoDepth ==> (|r.undo| == UndoDepth && r.undo[..UndoDepth - 1] == h.undo[1..])
  {
    if |h.undo| == UndoDepth then History(h.undo[1..] + [s], [])
    else History(h.undo + [s], [])
  }

  /** `Undo()`: an empty undo stack throws InvalidOperationException. */
  function Undo(h: History): (r: Result<History>)
    ensures r.Err? <==> |h.undo| == 0
    ensures r.Err? ==> r.error == InvalidOperation
    ensures r.Ok? ==> |r.value.undo| == |h.undo| - 1 && r.value.undo == h.undo[..|h.undo| - 1]
                      && r.value.redo == h.redo + [Last(h.undo)]
  {
    if |h.undo| < 1 then Err(InvalidOperation)
    else Ok(History(h.undo[..|h.undo| - 1], h.redo + [Last(h.undo)]))
  }

  /** `Redo()`: an empty redo stack throws InvalidOperationException. */
  function Redo(h: History): (r: Result<History>)
    ensures r.Err? <==> |h.redo| == 0
    ensures r.Err? ==> r.error == InvalidOperation
    ensures r.Ok? ==> r.value.redo == h.redo[..|h.redo| - 1]
                      && r.value.undo == h.undo + [Last(h.redo)]
  {
    if |h.redo| == 0 then Err(InvalidOperation)
    else Ok(History(h.undo + [Last(h.redo)], h.redo[..|h.redo| - 1]))
  }

  /** `RevertToRaw()`: every undo entry, top first, is pushed onto the redo stack. */
  function RevertToRaw(h: History): History
  {
    History([], h.redo + Reverse(h.undo))
  }

  /** `n` calls of `Undo()` in a row; the first that throws ends the sequence. */
  function UndoN(h: History, n: nat): Result<History>
    decreases n
  {
    if n == 0 then Ok(h)
    else match Undo(h)
      case Err(e) => Err(e)
      case Ok(h') => UndoN(h', n - 1)
  }

  /** `n` calls of `Redo()` in a row. */
  function RedoN(h: History, n: nat): Result<History>
    decreases n
  {
    if n == 0 then Ok(h)
    else match Redo(h)
      case Err(e) => Err(e)
      case Ok(h') => RedoN(h', n - 1)
  }

  /** The LINQ query `from s in stack where s.EditTimestamp == t select s`
      with `FirstOrDefault`: a Stack enumerates from its top, so this is the
      position of the topmost state stamped `t`. */
  function TopmostWith(s: seq<SensorState>, t: Timestamp): (r: Option<nat>)
    ensures r.Some? ==> r.value < |s| && s[r.value].editTimestamp == t
                        && forall j :: r.value < j < |s| ==> s[j].editTimestamp != t
    ensures r.None? ==> forall j :: 0 <= j < |s| ==> s[j].editTimestamp != t
  {
    if |s| == 0 then None
    else if Last(s).editTimestamp == t then Some(|s| - 1)
    else TopmostWith(s[..|s| - 1], t)
  }

  /** `Undo(DateTime)`: undo until the topmost undo state stamped `t` is on
      top; nothing happens when no undo state carries that stamp. */
  function UndoTo(h: History, t: Timestamp): History
  {
    match TopmostWith(h.undo, t)
    case None => h
    case Some(i) => History(h.undo[..i + 1], h.redo + Reverse(h.undo[i + 1..]))
  }

  /** `Redo(DateTime)`: redo until the topmost redo state stamped `t` is on
      the undo top; nothing happens when no redo state carries that stamp. */
  function RedoTo(h: History, t: Timestamp): History
  {
    match TopmostWith(h.redo, t)
    case None => h
    case Some(j) => History(h.undo + Reverse(h.redo[j..]), h.redo[..j])
  }

  // ----- properties ---------------------------------------------------------

  /** After `AddState(s)` the current state is `s` and nothing can be redone. */
  lemma CommitMakesCurrent(h: History, s: SensorState, raw: SensorState)
    ensures Current(Commit(h, s), raw) == s
    ensures Redo(Commit(h, s)).Err?
  {
  }

  /** Starting from at most `UndoDepth` states, `AddState` keeps the bound and
      only ever loses the oldest state. */
  lemma CommitBounded(h: History, s: SensorState)
    requires |h.undo| <= UndoDepth
    ensures |Commit(h, s).undo| <= UndoDepth
    ensures Commit(h, s).undo == (if |h.undo| == UndoDepth then h.undo[1..] else h.undo) + [s]
  {
    var r := Commit(h, s);
    assert r.undo == r.undo[..|r.undo| - 1] + [s];
  }

  /** The most recent states, at most `UndoDepth` of them. */
  function LastN(s: seq<SensorState>, n: nat): (r: seq<SensorState>)
    ensures |r| <= n && |r| <= |s|
  {
    if |s| <= n then s else s[|s| - n..]
  }

  /** Committing a series of states. */
  function CommitAll(h: History, ss: seq<SensorState>): History
    decreases |ss|
  {
    if |ss| == 0 then h else CommitAll(Commit(h, ss[0]), ss[1..])
  }

  /** However many states are committed, the undo stack holds exactly the
      latest `UndoDepth` of the old stack followed by the new states. */
  lemma {:induction false} CommitAllKeepsLatest(h: History, ss: seq<SensorState>)
    requires |h.undo| <= UndoDepth
    ensures CommitAll(h, ss).undo == LastN(h.undo + ss, UndoDepth)
    decreases |ss|
  {
    if |ss| > 0 {
      var h' := Commit(h, ss[0]);
      var all := h.undo + ss;
      assert |h'.undo| <= UndoDepth by {
        CommitBounded(h, ss[0]);
      }
      CommitAllKeepsLatest(h', ss[1..]);
      assert LastN(h'.undo + ss[1..], UndoDepth) == LastN(all, UndoDepth) by {
        CommitBounded(h, ss[0]);
        assert h'.undo + ss[1..] == (if |h.undo| == UndoDepth then all[1..] else all);
      }
    } else {
      assert h.undo + ss == h.undo;
    }
  }

  /** `Undo` followed by `Redo` restores both stacks. */
  lemma UndoThenRedo(h: History)
    requires |h.undo| > 0
    ensures Undo(h).Ok? && Redo(Undo(h).value) == Ok(h)
  {
    assert h.undo[..|h.undo| - 1] + [Last(h.undo)] == h.undo;
  }

  /** `Redo` followed by `Undo` restores both stacks. */
  lemma RedoThenUndo(h: History)
    requires |h.redo| > 0
    ensures Redo(h).Ok? && Undo(Redo(h).value) == Ok(h)
  {
    assert h.redo[..|h.redo| - 1] + [Last(h.redo)] == h.redo;
  }

  /** Undo and redo move the cursor through the timeline without changing it. */
  lemma UndoRedoKeepTimeline(h: History)
    ensures Undo(h).Ok? ==> Timeline(Undo(h).value) == Timeline(h)
    ensures Redo(h).Ok? ==> Timeline(Redo(h).value) == Timeline(h)
  {
    if |h.undo| > 0 {
      var u := h.undo[..|h.undo| - 1];
      ReverseAppend(h.redo, Last(h.undo));
      assert u + [Last(h.undo)] == h.undo;
      assert Timeline(Undo(h).value) == u + ([Last(h.undo)] + Reverse(h.redo));
    }
    if |h.redo| > 0 {
      var d := h.redo[..|h.redo| - 1];
      assert d + [Last(h.redo)] == h.redo;
      ReverseAppend(d, Last(h.redo));
      assert Timeline(Redo(h).value) == h.undo + ([Last(h.redo)] + Reverse(d));
    }
  }

  /** The undo stack never exceeds `UndoDepth` once it starts within it:
      undo, redo and reverting keep the total number of stored states (and
      commit resets the redo stack). */
  lemma StackSizes(h: History, s: SensorState)
    requires |h.undo| <= UndoDepth
    ensures |Commit(h, s).undo| <= UndoDepth
    ensures Undo(h).Ok? ==> |Undo(h).value.undo| + |Undo(h).value.redo| == |h.undo| + |h.redo|
    ensures Redo(h).Ok? ==> |Redo(h).value.undo| + |Redo(h).value.redo| == |h.undo| + |h.redo|
    ensures |RevertToRaw(h).undo| == 0 && |RevertToRaw(h).redo| == |h.undo| + |h.redo|
  {
  }

  /** `n` successful redos from `h` move the top `n` redo states, top first,
      onto the undo stack. */
  lemma {:induction false} RedoNMoves(h: History, n: nat)
    requires n <= |h.redo|
    ensures RedoN(h, n) == Ok(History(h.undo + Reverse(h.redo[|h.redo| - n..]), h.redo[..|h.redo| - n]))
    decreases n
  {
    var d := h.redo;
    var k := |d| - n;
    if n > 0 {
      var h' := Redo(h).value;
      RedoNMoves(h', n - 1);
      assert h'.redo == d[..|d| - 1];
      assert h'.redo[..|h'.redo| - (n - 1)] == d[..k];
      assert h'.redo[|h'.redo| - (n - 1)..] == d[k..|d| - 1];
      assert d[k..] == d[k..|d| - 1] + [Last(d)];
      ReverseAppend(d[k..|d| - 1], Last(d));
      assert h.undo + Reverse(d[k..]) == h'.undo + Reverse(d[k..|d| - 1]);
    } else {
      assert d[k..] == [];
      assert d[..k] == d;
      assert h.undo + Reverse(d[k..]) == h.undo;
    }
  }

  /** `n` successful undos from `h` move the top `n` undo states, top first,
      onto the redo stack. */
  lemma {:induction false} UndoNMoves(h: History, n: nat)
    requires n <= |h.undo|
    ensures UndoN(h, n) == Ok(History(h.undo[..|h.undo| - n], h.redo + Reverse(h.undo[|h.undo| - n..])))
    decreases n
  {
    var u := h.undo;
    var k := |u| - n;
    if n > 0 {
      var h' := Undo(h).value;
      UndoNMoves(h', n - 1);
      assert h'.undo == u[..|u| - 1];
      assert h'.undo[..|h'.undo| - (n - 1)] == u[..k];
      assert h'.undo[|h'.undo| - (n - 1)..] == u[k..|u| - 1];
      assert u[k..] == u[k..|u| - 1] + [Last(u)];
      ReverseAppend(u[k..|u| - 1], Last(u));
      assert h.redo + Reverse(u[k..]) == h'.redo + Reverse(u[k..|u| - 1]);
    } else {
      assert u[k..] == [];
      assert u[..k] == u;
      assert h.redo + Reverse(u[k..]) == h.redo;
    }
  }

  /** Taking one more state off the top of `d`'s first `k` states. */
  lemma ReverseSuffix(d: seq<SensorState>, k: nat)
    requires 0 < k <= |d|
    ensures Reverse(d[k - 1..]) == Reverse(d[k..]) + [d[k - 1]]
  {
    assert d[k - 1..] == [d[k - 1]] + d[k..];
    ReverseConcat([d[k - 1]], d[k..]);
    assert Reverse([d[k - 1]]) == [d[k - 1]];
  }

  /** Part-way through undoing `d` onto `r`, one more `Undo()` moves the
      next state of `d` across. */
  lemma UndoStep(d: seq<SensorState>, r: seq<SensorState>, k: nat)
    requires 0 < k <= |d|
    ensures Undo(History(d[..k], r + Reverse(d[k..]))) == Ok(History(d[..k - 1], r + Reverse(d[k - 1..])))
  {
    var h := History(d[..k], r + Reverse(d[k..]));
    ReverseSuffix(d, k);
    assert h.undo[..k - 1] == d[..k - 1] && Last(h.undo) == d[k - 1];
    assert h.redo + [d[k - 1]] == r + Reverse(d[k - 1..]);
  }

  /** Part-way through redoing `d` onto `u`, one more `Redo()` moves the
      next state of `d` across. */
  lemma RedoStep(u: seq<SensorState>, d: seq<SensorState>, k: nat)
    requires 0 < k <= |d|
    ensures Redo(History(u + Reverse(d[k..]), d[..k])) == Ok(History(u + Reverse(d[k - 1..]), d[..k - 1]))
    ensures Last(u + Reverse(d[k - 1..])) == d[k - 1]
  {
    var h := History(u + Reverse(d[k..]), d[..k]);
    ReverseSuffix(d, k);
    assert h.redo[..k - 1] == d[..k - 1] && Last(h.redo) == d[k - 1];
    assert h.undo + [d[k - 1]] == u + Reverse(d[k - 1..]);
  }

  /** After `RevertToRaw`, as many `Redo` calls as there were undo states
      restore the original undo stack and redo stack. */
  lemma RevertThenRedoAll(h: History)
    ensures RedoN(RevertToRaw(h), |h.undo|) == Ok(h)
  {
    var r := RevertToRaw(h);
    var n := |h.undo|;
    RedoNMoves(r, n);
    assert |r.redo| - n == |h.redo|;
    assert r.redo[|h.redo|..] == Reverse(h.undo);
    assert r.redo[..|h.redo|] == h.redo;
    ReverseReverse(h.undo);
    assert r.undo + Reverse(Reverse(h.undo)) == h.undo;
  }

  /** Without an undo state stamped `t`, `Undo(t)` changes nothing. */
  lemma UndoToAbsent(h: History, t: Timestamp)
    requires forall i :: 0 <= i < |h.undo| ==> h.undo[i].editTimestamp != t
    ensures UndoTo(h, t) == h
  {
  }

  /** `Undo(t)` is a number of plain `Undo()` calls, after which the topmost
      undo state stamped `t` is the current state: every state undone on
      the way carries another stamp. */
  lemma UndoToPresent(h: History, t: Timestamp, raw: SensorState)
    requires exists i :: 0 <= i < |h.undo| && h.undo[i].editTimestamp == t
    ensures Current(UndoTo(h, t), raw).editTimestamp == t
    ensures forall j :: |UndoTo(h, t).undo| <= j < |h.undo| ==> h.undo[j].editTimestamp != t
    ensures UndoN(h, |h.undo| - |UndoTo(h, t).undo|) == Ok(UndoTo(h, t))
  {
    var i := TopmostWith(h.undo, t).value;
    var r := History(h.undo[..i + 1], h.redo + Reverse(h.undo[i + 1..]));
    assert UndoTo(h, t) == r && |r.undo| == i + 1;
    UndoNMoves(h, |h.undo| - (i + 1));
    assert Last(r.undo) == h.undo[i];
  }

  /** `Undo(t)` keeps the timeline. */
  lemma UndoToKeepsTimeline(h: History, t: Timestamp)
    ensures Timeline(UndoTo(h, t)) == Timeline(h)
  {
    if TopmostWith(h.undo, t).Some? {
      var i := TopmostWith(h.undo, t).value;
      var top := h.undo[i + 1..];
      assert h.undo[..i + 1] + top == h.undo;
      ReverseConcat(h.redo, Reverse(top));
      ReverseReverse(top);
      assert Reverse(h.redo + Reverse(top)) == top + Reverse(h.redo);
    }
  }

  /** Without a redo state stamped `t`, `Redo(t)` changes nothing. */
  lemma RedoToAbsent(h: History, t: Timestamp)
    requires forall j :: 0 <= j < |h.redo| ==> h.redo[j].editTimestamp != t
    ensures RedoTo(h, t) == h
  {
  }

  /** `Redo(t)` is a number of plain `Redo()` calls, after which the topmost
      redo state stamped `t` is the current state: every state redone
      before it carries another stamp. */
  lemma RedoToPresent(h: History, t: Timestamp, raw: SensorState)
    requires exists j :: 0 <= j < |h.redo| && h.redo[j].editTimestamp == t
    ensures Current(RedoTo(h, t), raw).editTimestamp == t
    ensures forall j :: |RedoTo(h, t).redo| < j < |h.redo| ==> h.redo[j].editTimestamp != t
    ensures RedoN(h, |h.redo| - |RedoTo(h, t).redo|) == Ok(RedoTo(h, t))
  {
    var j := TopmostWith(h.redo, t).value;
    RedoNMoves(h, |h.redo| - j);
    var moved := Reverse(h.redo[j..]);
    assert moved[|moved| - 1] == h.redo[j];
  }

  /** `Redo(t)` keeps the timeline. */
  lemma RedoToKeepsTimeline(h: History, t: Timestamp)
    ensures Timeline(RedoTo(h, t)) == Timeline(h)
  {
    if TopmostWith(h.redo, t).Some? {
      var j := TopmostWith(h.redo, t).value;
      assert h.redo[..j] + h.redo[j..] == h.redo;
      ReverseConcat(h.redo[..j], h.redo[j..]);
    }
  }

  /** Reverting leaves the raw state current and keeps every version
      reachable, in the same order. */
  lemma RevertToRawMeaning(h: History, raw: SensorState)
    ensures Current(RevertToRaw(h), raw) == raw
    ensures Timeline(RevertToRaw(h)) == Timeline(h)
  {
    ReverseConcat(h.redo, Reverse(h.undo));
    ReverseReverse(h.undo);
    assert Timeline(RevertToRaw(h)) == [] + Reverse(h.redo + Reverse(h.undo));
  }
}
