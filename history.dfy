/** The undo history of the editor: snapshots of the whole layer stack and the
    active index, kept in a list of bounded length. */
module History {
  import opened Layers

  /** The most entries the history keeps. */
  const MaxHistory: nat := 10

  /** What a snapshot keeps of one layer. The pixels are kept as a copy (the
      source encodes them as a PNG data URL), so drawing on the live layer later
      does not change the snapshot. */
  datatype LayerSnapshot = LayerSnapshot(
    name: string,
    visible: bool,
    mode: string,
    opacity: real,
    data: Pixels)

  datatype HistoryEntry = HistoryEntry(layers: seq<LayerSnapshot>, activeLayerIndex: int)

  /** What saveState keeps of one layer: its name, visibility, blend mode,
      opacity and a copy of its pixels. */
  function Snapshot(l: Layer): (s: LayerSnapshot)
    ensures s.name == l.name && s.visible == l.visible && s.mode == l.mode
    ensures s.opacity == l.opacity && s.data == l.pixels
  {
    LayerSnapshot(l.name, l.visible, l.mode, l.opacity, l.pixels)
  }

  /** The entry saveState records: one snapshot per layer, in stack order, and the
      active index as it is. */
  function Capture(layers: seq<Layer>, active: int): (e: HistoryEntry)
    ensures |e.layers| == |layers| && e.activeLayerIndex == active
    ensures forall k :: 0 <= k < |layers| ==>
              && e.layers[k].name == layers[k].name
              && e.layers[k].visible == layers[k].visible
              && e.layers[k].mode == layers[k].mode
              && e.layers[k].opacity == layers[k].opacity
              && e.layers[k].data == layers[k].pixels
  {
    HistoryEntry(seq(|layers|, k requires 0 <= k < |layers| => Snapshot(layers[k])), active)
  }

  /** The layer undo rebuilds from a snapshot: a new layer of the recorded name
      with the recorded visibility, mode and opacity, and, once the recorded image
      has been decoded and drawn onto it, the recorded pixels. Snapshotting it
      again gives back the snapshot it came from. */
  function Revive(s: LayerSnapshot): (l: Layer)
    ensures Snapshot(l) == s
  {
    NewLayer(s.name).(visible := s.visible, mode := s.mode, opacity := s.opacity, pixels := s.data)
  }

  /** A snapshot loses nothing of a layer: reviving it gives back the layer. */
  lemma ReviveSnapshot(l: Layer)
    ensures Revive(Snapshot(l)) == l
  {
  }

  /** The layer stack undo rebuilds from an entry's snapshots: one layer per
      snapshot, in order, each carrying exactly what its snapshot recorded. */
  function Restore(snaps: seq<LayerSnapshot>): (ls: seq<Layer>)
    ensures |ls| == |snaps|
    ensures forall k :: 0 <= k < |snaps| ==> Snapshot(ls[k]) == snaps[k]
  {
    seq(|snaps|, k requires 0 <= k < |snaps| => Revive(snaps[k]))
  }

  /** Restoring what was captured gives back the captured layer stack. */
  lemma RestoreCapture(layers: seq<Layer>, active: int)
    ensures Restore(Capture(layers, active).layers) == layers
  {
    var r := Restore(Capture(layers, active).layers);
    forall k | 0 <= k < |layers|
      ensures r[k] == layers[k]
    {
      assert Snapshot(r[k]) == Snapshot(layers[k]);
    }
  }

  /** The history after saveState records `e`: when the history already holds
      MaxHistory or more entries the oldest one is dropped first; `e` is last, and
      the older entries kept are the newest ones of `h`, in order. */
  function Push<E>(h: seq<E>, e: E): (r: seq<E>)
    ensures |r| == if |h| < MaxHistory then |h| + 1 else |h|
    ensures |h| <= MaxHistory ==> |r| <= MaxHistory
    ensures r[|r| - 1] == e
    ensures |h| < MaxHistory ==> r[..|h|] == h
    ensures |h| >= MaxHistory ==> r[..|r| - 1] == h[1..]
  {
    var kept := if |h| >= MaxHistory then h[1..] else h;
    kept + [e]
  }

  /** The history after saveState records each of `es` in turn. */
  function PushAll<E>(h: seq<E>, es: seq<E>): seq<E>
    decreases |es|
  {
    if es == [] then h else PushAll(Push(h, es[0]), es[1..])
  }

  /** The newest MaxHistory entries of `s`, oldest first (all of `s` when it is
      shorter). */
  function Newest<E>(s: seq<E>): (r: seq<E>)
    ensures |r| == if |s| < MaxHistory then |s| else MaxHistory
  {
    if |s| <= MaxHistory then s else s[|s| - MaxHistory..]
  }

  /** Recording one entry into a history of at most MaxHistory entries keeps the
      newest MaxHistory entries of the history followed by the entry. */
  lemma PushKeepsNewest<E>(h: seq<E>, e: E)
    requires |h| <= MaxHistory
    ensures Push(h, e) == Newest(h + [e])
  {
  }

  /** Taking the newest entries first and appending more keeps the same newest
      entries as appending to the whole sequence. */
  lemma NewestAppend<E>(s: seq<E>, t: seq<E>)
    ensures Newest(Newest(s) + t) == Newest(s + t)
  {
    if |s| > MaxHistory {
      var d := |s| - MaxHistory;
      assert Newest(s) + t == (s + t)[d..];
    }
  }

  /** However many entries are recorded, the history keeps exactly the newest
      MaxHistory of everything recorded (or all of it, when there is less), oldest
      first, so repeated undo hands them back newest first. */
  lemma {:induction false} PushAllKeepsNewest<E>(h: seq<E>, es: seq<E>)
    requires |h| <= MaxHistory
    ensures PushAll(h, es) == Newest(h + es)
    decreases |es|
  {
    if es == [] {
      assert h + es == h;
    } else {
      var h' := Push(h, es[0]);
      PushAllKeepsNewest(h', es[1..]);
      PushKeepsNewest(h, es[0]);
      NewestAppend(h + [es[0]], es[1..]);
      assert h + [es[0]] + es[1..] == h + es;
    }
  }
}
