/**
 * The durable objects a node owns, in the source's imperative form. Each
 * mutation rewrites the file; an object is valid when its file stands for its
 * value, written by it or read back from it.
 */
module RaftStore {
  import opened RaftTypes
  import opened RaftLog
  import opened RaftFiles

  /** One turn of the record loop: either the record at pos is whole, or reading ends. */
  lemma RecordAt(data: Bytes, pos: nat, term: nat, length: nat)
    requires pos + 12 <= |data| && term == Number(data[pos..pos + 8]) && length == Number(data[pos + 8..pos + 12])
    ensures pos + 12 + length > |data| ==> DecodeEntries(data[pos..]) == []
    ensures pos + 12 + length <= |data| ==>
              DecodeEntries(data[pos..])
              == [Entry(term, data[pos + 12..pos + 12 + length])] + DecodeEntries(data[pos + 12 + length..])
  {
    var rest := data[pos..];
    assert rest[..8] == data[pos..pos + 8] && rest[8..12] == data[pos + 8..pos + 12];
    if pos + 12 + length <= |data| {
      assert rest[12..12 + length] == data[pos + 12..pos + 12 + length];
      assert rest[12 + length..] == data[pos + 12 + length..];
    }
  }

  lemma MoveOver(done: seq<Entry>, e: Entry, rest: seq<Entry>)
    ensures done + ([e] + rest) == (done + [e]) + rest
  {
  }

  /** One turn of the append loop: entries under the gap are skipped. */
  lemma TakenSoFar(news: seq<Entry>, gap: nat, j: nat)
    requires j < |news|
    ensures news[Min(gap, j + 1)..j + 1] == if j < gap then [] else news[Min(gap, j)..j] + [news[j]]
    ensures j <= gap ==> news[Min(gap, j)..j] == []
  {
  }

  class LogStore {
    var entries: seq<Entry>
    var snapshotLastIndex: nat
    var snapshotLastTerm: nat
    var snapshotData: Bytes
    var file: Bytes

    function View(): LogState
      reads this
    {
      LogState(snapshotLastIndex, snapshotLastTerm, snapshotData, entries)
    }

    /** The file is what persist writes for the current value. */
    ghost predicate Written()
      reads this
    {
      file == Encode(View())
    }

    ghost predicate Valid()
      reads this
    {
      Written() || Decode(file) == View()
    }

    /** open_file: data is the file's content, if one was found. */
    constructor (found: bool, data: Bytes)
      ensures View() == (if found then Decode(data) else EmptyLog)
      ensures Valid() && (Written() || (found && file == data))
    {
      entries, snapshotLastIndex, snapshotLastTerm, snapshotData, file := [], 0, 0, [], data;
      new;
      if !found {
        Persist();
      } else {
        var ok, pos := ReadHeader(data);
        if ok { ReadEntries(data, pos); }
      }
    }

    /** The header, when there is one; a header or snapshot cut short ends the reading. */
    method ReadHeader(data: Bytes) returns (ok: bool, pos: nat)
      requires View() == EmptyLog && file == data
      modifies this
      ensures ok ==> pos <= |data| && file == data && entries == []
                     && Decode(data) == View().(entries := DecodeEntries(data[pos..]))
      ensures !ok ==> View() == Decode(data) && Written()
    {
      ok, pos := true, 0;
      if |data| >= 4 && Number(data[..4]) == Magic {
        if 4 + 8 * 2 + 4 > |data| {
          Persist();
          return false, 4;
        }
        snapshotLastIndex := Number(data[4..12]);
        snapshotLastTerm := Number(data[12..20]);
        var length := Number(data[20..24]);
        if 24 + length > |data| {
          Persist();
          return false, 24;
        }
        snapshotData := data[24..24 + length];
        pos := 24 + length;
      } else {
        assert data[0..] == data;
      }
    }

    /** The record loop of open_file, from a moving position. */
    method ReadEntries(data: Bytes, start: nat)
      requires start <= |data|
      modifies this`entries
      ensures entries == old(entries) + DecodeEntries(data[start..])
    {
      var pos := start;
      ghost var whole := entries + DecodeEntries(data[start..]);
      while pos + 12 <= |data|
        invariant pos <= |data|
        invariant entries + DecodeEntries(data[pos..]) == whole
        decreases |data| - pos
      {
        var term, length := Number(data[pos..pos + 8]), Number(data[pos + 8..pos + 12]);
        RecordAt(data, pos, term, length);
        var next := pos + 12 + length;
        if next > |data| { return; }
        var e := Entry(term, data[pos + 12..next]);
        MoveOver(entries, e, DecodeEntries(data[next..]));
        entries := entries + [e];
        pos := next;
      }
    }

    /** Rewrite the whole file: header, snapshot data, then one record per entry. */
    method Persist()
      modifies this`file
      ensures Written()
    {
      var out := EncodeHeader(View()) + snapshotData;
      ghost var head := out;
      for i := 0 to |entries|
        invariant View() == old(View())
        invariant out + EncodeEntries(entries[i..]) == head + EncodeEntries(entries)
      {
        ghost var before := out;
        out := out + EncodeEntry(entries[i]);
        assert entries[i..][0] == entries[i] && entries[i..][1..] == entries[i + 1..];
        assert out + EncodeEntries(entries[i + 1..]) == before + EncodeEntries(entries[i..]);
      }
      file := out;
    }

    method Append(term: nat, command: Bytes)
      modifies this
      ensures Written() && View() == old(View()).Append(term, command)
    {
      entries := entries + [Entry(term, command)];
      Persist();
    }

    method TruncateAndAppend(keep: nat, news: seq<Entry>)
      modifies this
      ensures Written() && View() == old(View()).TruncateAndAppend(keep, news)
    {
      CutTo(keep);
      AppendAbove(keep, news);
      Persist();
    }

    /** Drop the entries past the absolute index keep, if it is below the end. */
    method CutTo(keep: nat)
      modifies this`entries
      ensures entries == old(entries)[..if keep <= snapshotLastIndex then 0
                                        else Min(keep - snapshotLastIndex, |old(entries)|)]
    {
      var physicalKeep := if keep > snapshotLastIndex then keep - snapshotLastIndex else 0;
      if physicalKeep < |entries| { entries := entries[..physicalKeep]; }
    }

    /** The append loop: entry j has the absolute index keep + 1 + j. */
    method AppendAbove(keep: nat, news: seq<Entry>)
      modifies this`entries
      ensures entries == old(entries) + news[if keep < snapshotLastIndex then Min(snapshotLastIndex - keep, |news|) else 0..]
    {
      ghost var gap := if keep < snapshotLastIndex then snapshotLastIndex - keep else 0;
      for j := 0 to |news|
        invariant entries == old(entries) + news[Min(gap, j)..j]
      {
        TakenSoFar(news, gap, j);
        if keep + 1 + j > snapshotLastIndex { entries := entries + [news[j]]; }
      }
      assert news[Min(gap, |news|)..|news|] == news[Min(gap, |news|)..];
    }

    method Compact(upTo: nat, term: nat, data: Bytes)
      modifies this
      ensures View() == old(View()).Compact(upTo, term, data)
      ensures if upTo <= old(snapshotLastIndex) then file == old(file) else Written()
    {
      if upTo <= snapshotLastIndex { return; }
      var removed := upTo - snapshotLastIndex;
      if removed > |entries| { removed := |entries|; }
      entries := entries[removed..];
      snapshotLastIndex, snapshotLastTerm, snapshotData := upTo, term, data;
      Persist();
    }
  }

  class VoteStore {
    var currentTerm: nat
    var votedFor: int
    var file: Bytes

    /** The file is what persist writes for the current term and vote. */
    ghost predicate Written()
      reads this
    {
      -0x8000_0000 <= votedFor < 0x8000_0000 && file == EncodeVote(currentTerm, votedFor)
    }

    ghost predicate Valid()
      reads this
    {
      Written() || DecodeVote(file) == (currentTerm, votedFor)
    }

    /** open_file: a missing or short file starts at term 0 without a vote, and is written out. */
    constructor (data: Bytes)
      ensures (currentTerm, votedFor) == DecodeVote(data) && Valid()
      ensures file == if |data| >= 12 then data else EncodeVote(0, NoVote)
    {
      VoteFits(data);
      if |data| >= 12 {
        currentTerm, votedFor, file := Number(data[..8]), Signed32(Number(data[8..12])), data;
      } else {
        currentTerm, votedFor, file := 0, NoVote, EncodeVote(0, NoVote);
      }
    }

    method Set(term: nat, vote: int)
      requires -0x8000_0000 <= vote < 0x8000_0000
      modifies this
      ensures Written() && currentTerm == term && votedFor == vote
    {
      currentTerm, votedFor := term, vote;
      file := EncodeVote(term, vote);
    }
  }

  /** A log object reopened from the file another one left behind has the same value. */
  method ReopenLog(before: LogStore) returns (after: LogStore)
    requires before.Valid() && Fits(before.View())
    ensures fresh(after) && after.View() == before.View() && after.Valid()
  {
    LogFileRoundTrip(before.View());
    after := new LogStore(true, before.file);
  }

  /** So has a vote object: neither the term nor a vote cast in it is forgotten. */
  method ReopenVote(before: VoteStore) returns (after: VoteStore)
    requires before.Valid() && before.currentTerm < Pow256(8)
    ensures fresh(after) && after.Valid() && after.currentTerm == before.currentTerm && after.votedFor == before.votedFor
  {
    VoteFileRoundTrip(before.currentTerm, before.votedFor);
    after := new VoteStore(before.file);
  }
}
