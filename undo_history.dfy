/**
 * The snapshot history behind undo and redo: a list of at most 20 snapshots and a cursor on the
 * current one. `saveState` drops whatever lies after the cursor, appends, and evicts the oldest
 * snapshot when the list would grow past 20; `undo` and `redo` move the cursor by one when they
 * can; the undo and redo buttons are enabled exactly when those moves are possible.
 */
module UndoHistory {

  /** Most snapshots kept. */
  const Capacity: nat := 20

  /** The snapshot list and the cursor, as values. An empty history has cursor -1. */
  datatype Timeline<T> = Timeline(entries: seq<T>, index: int)

  /** Either the initial empty history, or a cursor on one of at most `Capacity` entries. */
  predicate ValidTimeline<T>(t: Timeline<T>) {
    (t.entries == [] && t.index == -1) || 0 <= t.index < |t.entries| <= Capacity
  }

  function Empty<T>(): (t: Timeline<T>)
    ensures ValidTimeline(t) && |t.entries| == 0
  {
    Timeline([], -1)
  }

  /**
   * `saveState` on the list and cursor: keep the entries up to the cursor, append the snapshot,
   * and either evict the oldest entry (when the list now exceeds 20) or advance the cursor.
   * Either way the cursor ends on the new snapshot.
   */
  function Saved<T>(t: Timeline<T>, snap: T): (r: Timeline<T>)
    requires ValidTimeline(t)
    ensures ValidTimeline(r) && |r.entries| > 0
    ensures r.index == |r.entries| - 1 && r.entries[r.index] == snap
    ensures var kept := t.entries[..t.index + 1];
            if |kept| < Capacity then r.entries == kept + [snap] else r.entries == kept[1..] + [snap]
    ensures forall x :: x in r.entries ==> x in t.entries || x == snap
  {
    var kept := if t.index < |t.entries| - 1 then t.entries[..t.index + 1] else t.entries;
    var pushed := kept + [snap];
    if |pushed| > Capacity then Timeline(pushed[1..], t.index) else Timeline(pushed, t.index + 1)
  }

  /** The undo button is enabled: there is an entry before the cursor. */
  predicate CanUndo<T>(t: Timeline<T>) {
    t.index > 0
  }

  /** The redo button is enabled: there is an entry after the cursor. */
  predicate CanRedo<T>(t: Timeline<T>) {
    t.index < |t.entries| - 1
  }

  /** `undo` on the list and cursor: one step back when possible, otherwise nothing. */
  function Undone<T>(t: Timeline<T>): (r: Timeline<T>)
    requires ValidTimeline(t)
    ensures ValidTimeline(r) && r.entries == t.entries
    ensures CanUndo(t) ==> r.index == t.index - 1
    ensures !CanUndo(t) ==> r == t
  {
    if t.index <= 0 then t else t.(index := t.index - 1)
  }

  /** `redo` on the list and cursor: one step forward when possible, otherwise nothing. */
  function Redone<T>(t: Timeline<T>): (r: Timeline<T>)
    requires ValidTimeline(t)
    ensures ValidTimeline(r) && r.entries == t.entries
    ensures CanRedo(t) ==> r.index == t.index + 1
    ensures !CanRedo(t) ==> r == t
  {
    if t.index >= |t.entries| - 1 then t else t.(index := t.index + 1)
  }

  /** The snapshot under the cursor, which `restoreState` brings back. */
  function Current<T>(t: Timeline<T>): T
    requires ValidTimeline(t) && |t.entries| > 0
  {
    t.entries[t.index]
  }

  /** Redo undoes an undo. */
  lemma RedoAfterUndo<T>(t: Timeline<T>)
    requires ValidTimeline(t) && CanUndo(t)
    ensures CanRedo(Undone(t)) && Redone(Undone(t)) == t
  {
  }

  /** Undo undoes a redo. */
  lemma UndoAfterRedo<T>(t: Timeline<T>)
    requires ValidTimeline(t) && CanRedo(t)
    ensures CanUndo(Redone(t)) && Undone(Redone(t)) == t
  {
  }

  /**
   * After a save there is nothing to redo, and undo is possible exactly when an earlier entry
   * was kept.
   */
  lemma SaveClearsRedo<T>(t: Timeline<T>, snap: T)
    requires ValidTimeline(t)
    ensures !CanRedo(Saved(t, snap))
    ensures CanUndo(Saved(t, snap)) <==> |t.entries| > 0
  {
  }

  /**
   * Saving after an undo replaces the undone entry and everything after it by the snapshot; the
   * list is below capacity then, so nothing is evicted and the cursor lands where undo left it
   * plus one.
   */
  lemma SaveAfterUndoForgetsFuture<T>(t: Timeline<T>, snap: T)
    requires ValidTimeline(t) && CanUndo(t)
    ensures var r := Saved(Undone(t), snap);
            r.entries == t.entries[..t.index] + [snap] && r.index == t.index
  {
  }

  /**
   * Undo right after a save brings back the snapshot that was current before it, whether the
   * save evicted the oldest entry or not.
   */
  lemma UndoAfterSave<T>(t: Timeline<T>, snap: T)
    requires ValidTimeline(t) && |t.entries| > 0
    ensures CanUndo(Saved(t, snap))
    ensures Current(Undone(Saved(t, snap))) == Current(t)
  {
  }

  /** Saving every snapshot of `snaps` in turn, first to last. */
  function SaveAll<T>(t: Timeline<T>, snaps: seq<T>): (r: Timeline<T>)
    requires ValidTimeline(t)
    ensures ValidTimeline(r)
    decreases |snaps|
  {
    if snaps == [] then t else Saved(SaveAll(t, snaps[..|snaps| - 1]), snaps[|snaps| - 1])
  }

  function MinNat(a: nat, b: nat): nat { if a <= b then a else b }

  /**
   * Starting from the empty history, saving any number of snapshots keeps exactly the latest
   * 20 of them (all of them when there are fewer), in order, with the cursor on the last.
   */
  lemma {:induction false} SaveAllKeepsLatest<T>(snaps: seq<T>)
    ensures var r := SaveAll(Empty(), snaps);
            && r.entries == snaps[|snaps| - MinNat(|snaps|, Capacity)..]
            && r.index == |r.entries| - 1
  {
    if snaps != [] {
      var n := |snaps|;
      var prefix := snaps[..n - 1];
      SaveAllKeepsLatest(prefix);
      var p := SaveAll(Empty(), prefix);
      assert SaveAll(Empty(), snaps) == Saved(p, snaps[n - 1]);
      var a := n - 1 - MinNat(n - 1, Capacity);
      assert p.entries == prefix[a..];
      assert p.entries[..p.index + 1] == p.entries;
      LastAppended(snaps, a);
      if n - 1 < Capacity {
        assert a == 0 && n - MinNat(n, Capacity) == 0;
      } else {
        assert n - MinNat(n, Capacity) == a + 1;
        assert prefix[a..][1..] == prefix[a + 1..];
        LastAppended(snaps, a + 1);
      }
    }
  }

  /** Appending the last element to a slice of the other elements gives a slice of the whole. */
  lemma LastAppended<T>(s: seq<T>, a: nat)
    requires a < |s|
    ensures s[..|s| - 1][a..] + [s[|s| - 1]] == s[a..]
  {
  }

  /** `k` presses of undo. */
  function UndoTimes<T>(t: Timeline<T>, k: nat): (r: Timeline<T>)
    requires ValidTimeline(t)
    ensures ValidTimeline(r) && r.entries == t.entries
  {
    if k == 0 then t else Undone(UndoTimes(t, k - 1))
  }

  /**
   * After saving `snaps` from the empty history, `k` undos bring back the `k`-th latest
   * snapshot before the last, as long as it is still among the 20 kept.
   */
  lemma {:induction false} UndoReachesEarlierSnapshot<T>(snaps: seq<T>, k: nat)
    requires k < MinNat(|snaps|, Capacity)
    ensures var u := UndoTimes(SaveAll(Empty(), snaps), k);
            |u.entries| > 0 && Current(u) == snaps[|snaps| - 1 - k]
  {
    var t := SaveAll(Empty(), snaps);
    SaveAllKeepsLatest(snaps);
    UndoCursor(t, k);
  }

  /** Each of `k` undos from the end moves the cursor back by one while that is possible. */
  lemma {:induction false} UndoCursor<T>(t: Timeline<T>, k: nat)
    requires ValidTimeline(t) && k <= t.index
    ensures UndoTimes(t, k).index == t.index - k
  {
    if k > 0 {
      UndoCursor(t, k - 1);
    }
  }
}
