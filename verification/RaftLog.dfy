/**
 * The replicated log with compaction (cluster/raft_log.hpp). Indices are
 * 1-based and absolute; everything up to snapIndex is kept only as a snapshot.
 */
module RaftLog {
  import opened RaftTypes

  datatype LogState = LogState(snapIndex: nat, snapTerm: nat, snapData: Bytes, entries: seq<Entry>)
  {
    function LastIndex(): nat {
      snapIndex + |entries|
    }

    function LastTerm(): nat {
      if |entries| > 0 then entries[|entries| - 1].term else snapTerm
    }

    function TermAt(i: nat): nat {
      if i == 0 || i > LastIndex() then 0
      else if i <= snapIndex then snapTerm
      else entries[i - 1 - snapIndex].term
    }

    predicate HasRealEntryAt(i: nat) {
      snapIndex < i <= LastIndex()
    }

    function CommandAt(i: nat): Bytes {
      if HasRealEntryAt(i) then entries[i - 1 - snapIndex].command else []
    }

    function Append(term: nat, command: Bytes): LogState {
      this.(entries := entries + [Entry(term, command)])
    }

    /** Entries kept are those up to the absolute index keep; incoming ones under the snapshot are dropped. */
    function TruncateAndAppend(keep: nat, es: seq<Entry>): LogState {
      var kept := if keep <= snapIndex then 0 else Min(keep - snapIndex, |entries|);
      var skip := if keep < snapIndex then Min(snapIndex - keep, |es|) else 0;
      this.(entries := entries[..kept] + es[skip..])
    }

    function Compact(upTo: nat, term: nat, data: Bytes): LogState {
      if upTo <= snapIndex then this
      else LogState(upTo, term, data, entries[Min(upTo - snapIndex, |entries|)..])
    }
  }

  const EmptyLog := LogState(0, 0, [], [])

  function Min(a: nat, b: nat): nat {
    if a < b then a else b
  }

  function Max(a: nat, b: nat): nat {
    if a < b then b else a
  }

  // ---------------------------------------------------------------- the uncompacted log

  /** s is what compaction left of the uncompacted log full. */
  ghost predicate Represents(s: LogState, full: seq<Entry>) {
    && s.snapIndex <= |full|
    && s.snapTerm == TermOf(full, s.snapIndex)
    && s.entries == full[s.snapIndex..]
  }

  /**
   * The uncompacted counterpart of truncate-and-append. The floor is the index
   * up to which the log is settled: nothing at or below it is replaced. A keep
   * count past the end keeps everything.
   */
  ghost function Splice(full: seq<Entry>, floor: nat, keep: nat, es: seq<Entry>): (r: seq<Entry>)
    requires floor <= |full|
    ensures floor <= |r|
  {
    if keep >= floor then full[..Min(keep, |full|)] + es
    else full[..floor] + es[Min(floor - keep, |es|)..]
  }

  /** The uncompacted counterpart of installing a snapshot that stands for prefix. */
  ghost function Overlay(full: seq<Entry>, prefix: seq<Entry>): seq<Entry> {
    if |prefix| < |full| then prefix + full[|prefix|..] else prefix
  }

  /** Every accessor answers as the uncompacted log would, where the source promises an answer. */
  lemma AccessorsAgree(s: LogState, full: seq<Entry>)
    requires Represents(s, full)
    ensures s.LastIndex() == |full|
    ensures s.LastTerm() == LastTermOf(full)
    ensures forall i :: s.snapIndex <= i <= |full| ==> s.TermAt(i) == TermOf(full, i)
    ensures forall i :: s.snapIndex < i <= |full| ==> s.CommandAt(i) == full[i - 1].command
    ensures forall i :: 1 <= i <= s.snapIndex ==> s.TermAt(i) == TermOf(full, s.snapIndex) && s.CommandAt(i) == []
    ensures forall i :: i > |full| ==> s.TermAt(i) == 0 && s.CommandAt(i) == []
  {
    assert |s.entries| == |full| - s.snapIndex;
  }

  lemma AppendRefines(s: LogState, full: seq<Entry>, term: nat, command: Bytes)
    requires Represents(s, full)
    ensures Represents(s.Append(term, command), full + [Entry(term, command)])
  {
  }

  lemma TruncateRefines(s: LogState, full: seq<Entry>, keep: nat, es: seq<Entry>)
    requires Represents(s, full)
    ensures Represents(s.TruncateAndAppend(keep, es), Splice(full, s.snapIndex, keep, es))
  {
    var t := Splice(full, s.snapIndex, keep, es);
    assert TermOf(t, s.snapIndex) == TermOf(full, s.snapIndex);
    if keep >= s.snapIndex {
      var cut := Min(keep, |full|);
      assert t[s.snapIndex..] == full[s.snapIndex..cut] + es;
      assert full[s.snapIndex..cut] == s.entries[..cut - s.snapIndex];
    }
  }

  lemma CompactRefines(s: LogState, full: seq<Entry>, prefix: seq<Entry>, data: Bytes)
    requires Represents(s, full) && s.snapIndex < |prefix|
    ensures Represents(s.Compact(|prefix|, LastTermOf(prefix), data), Overlay(full, prefix))
  {
    var k := |prefix|;
    var t := Overlay(full, prefix);
    assert TermOf(t, k) == LastTermOf(prefix);
    if k < |full| {
      assert t[k..] == full[k..];
      assert s.entries[k - s.snapIndex..] == full[k..];
    } else {
      assert t[k..] == [];
    }
  }

  // ---------------------------------------------------------------- whole runs of operations

  /**
   * Mutations of the log. Compaction of held entries and installation of a
   * received snapshot are the same call; prefix is the history it stands for.
   */
  datatype LogOp =
    | OpAppend(term: nat, command: Bytes)
    | OpTruncate(keep: nat, es: seq<Entry>)
    | OpCompact(prefix: seq<Entry>, data: Bytes)

  function Apply(s: LogState, op: LogOp): LogState {
    match op
    case OpAppend(t, c) => s.Append(t, c)
    case OpTruncate(k, es) => s.TruncateAndAppend(k, es)
    case OpCompact(p, d) => s.Compact(|p|, LastTermOf(p), d)
  }

  function ApplyAll(s: LogState, ops: seq<LogOp>): LogState
    decreases |ops|
  {
    if ops == [] then s else ApplyAll(Apply(s, ops[0]), ops[1..])
  }

  /** The same operation on an uncompacted log; floor is the highest index compacted so far. */
  ghost function ApplyFull(full: seq<Entry>, floor: nat, op: LogOp): (r: (seq<Entry>, nat))
    requires floor <= |full|
    ensures r.1 <= |r.0|
  {
    match op
    case OpAppend(t, c) => (full + [Entry(t, c)], floor)
    case OpTruncate(k, es) => (Splice(full, floor, k, es), floor)
    case OpCompact(p, _) => if |p| <= floor then (full, floor) else (Overlay(full, p), |p|)
  }

  ghost function ApplyAllFull(full: seq<Entry>, floor: nat, ops: seq<LogOp>): seq<Entry>
    requires floor <= |full|
    decreases |ops|
  {
    if ops == [] then full
    else ApplyAllFull(ApplyFull(full, floor, ops[0]).0, ApplyFull(full, floor, ops[0]).1, ops[1..])
  }

  /** Compaction is invisible: any run of operations keeps the compacted log a view of the uncompacted one. */
  lemma {:induction false} CompactionInvisible(s: LogState, full: seq<Entry>, ops: seq<LogOp>)
    requires Represents(s, full)
    ensures Represents(ApplyAll(s, ops), ApplyAllFull(full, s.snapIndex, ops))
    decreases |ops|
  {
    if ops != [] {
      var next := ApplyFull(full, s.snapIndex, ops[0]);
      match ops[0] {
        case OpAppend(t, c) => AppendRefines(s, full, t, c);
        case OpTruncate(k, es) => TruncateRefines(s, full, k, es);
        case OpCompact(p, d) => if |p| > s.snapIndex { CompactRefines(s, full, p, d); }
      }
      CompactionInvisible(Apply(s, ops[0]), next.0, ops[1..]);
    }
  }

  /**
   * The settled floor does not show either when the incoming entries agree
   * with what it covers and reach it: the result is the plain splice at keep.
   */
  lemma SpliceAtFloorIsPlain(full: seq<Entry>, floor: nat, keep: nat, es: seq<Entry>)
    requires keep <= floor <= |full| && floor <= keep + |es|
    requires es[..floor - keep] == full[keep..floor]
    ensures Splice(full, floor, keep, es) == full[..keep] + es
  {
    assert full[..floor] == full[..keep] + full[keep..floor];
    assert es == es[..floor - keep] + es[floor - keep..];
  }

  /** A keep count past the end puts the new entries at the wrong indices; up to the end it does not. */
  lemma TruncatePlacesEntriesExactly(s: LogState, keep: nat, es: seq<Entry>)
    requires s.snapIndex < keep && |es| > 0
    ensures (s.TruncateAndAppend(keep, es).LastIndex() == keep + |es|) <==> keep <= s.LastIndex()
  {
  }
}
