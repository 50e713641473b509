/**
 * The on-disk formats: the log file of cluster/raft_log.hpp and the term and
 * vote file of cluster/raft_state.hpp. Integers are little-endian.
 */
module RaftFiles {
  import opened RaftTypes
  import opened RaftLog

  function Pow256(k: nat): nat {
    if k == 0 then 1 else 256 * Pow256(k - 1)
  }

  /** The k low bytes of n, as a cast to a k-byte unsigned integer keeps them. */
  function Bytesize(n: nat, k: nat): (r: Bytes)
    ensures |r| == k
    decreases k
  {
    if k == 0 then [] else [(n % 256) as Byte] + Bytesize(n / 256, k - 1)
  }

  function Number(b: Bytes): nat {
    if b == [] then 0 else b[0] as nat + 256 * Number(b[1..])
  }

  const Magic: nat := 0x4E41_4654

  /** Bytes in front of the snapshot data: magic, index, term, length. */
  const HeaderSize: nat := 24

  /** Bytes in front of an entry's command: term, length. */
  const EntryHead: nat := 12

  function EncodeEntry(e: Entry): (r: Bytes)
    ensures |r| == EntryHead + |e.command|
  {
    Bytesize(e.term, 8) + Bytesize(|e.command|, 4) + e.command
  }

  function EncodeEntries(es: seq<Entry>): Bytes {
    if es == [] then [] else EncodeEntry(es[0]) + EncodeEntries(es[1..])
  }

  function EncodeHeader(s: LogState): (r: Bytes)
    ensures |r| == HeaderSize
  {
    Bytesize(Magic, 4) + Bytesize(s.snapIndex, 8) + Bytesize(s.snapTerm, 8) + Bytesize(|s.snapData|, 4)
  }

  /** What persist writes. */
  function Encode(s: LogState): Bytes {
    EncodeHeader(s) + s.snapData + EncodeEntries(s.entries)
  }

  /** The entry records from a position on, up to the first incomplete one. */
  function DecodeEntries(data: Bytes): seq<Entry>
    decreases |data|
  {
    if |data| < EntryHead then []
    else
      var len := Number(data[8..12]);
      if EntryHead + len > |data| then []
      else [Entry(Number(data[..8]), data[12..12 + len])] + DecodeEntries(data[12 + len..])
  }

  predicate HasMagic(data: Bytes) {
    |data| >= 4 && Number(data[..4]) == Magic
  }

  /** What open_file makes of a file's bytes, including files of the older headerless format. */
  function Decode(data: Bytes): LogState {
    if !HasMagic(data) then LogState(0, 0, [], DecodeEntries(data))
    else if |data| < HeaderSize then EmptyLog
    else
      var index, term, len := Number(data[4..12]), Number(data[12..20]), Number(data[20..24]);
      if HeaderSize + len > |data| then LogState(index, term, [], [])
      else LogState(index, term, data[24..24 + len], DecodeEntries(data[24 + len..]))
  }

  /** The values fit their fields. */
  ghost predicate Fits(s: LogState) {
    && s.snapIndex < Pow256(8) && s.snapTerm < Pow256(8) && |s.snapData| < Pow256(4)
    && EntriesFit(s.entries)
  }

  ghost predicate EntriesFit(es: seq<Entry>) {
    forall i :: 0 <= i < |es| ==> es[i].term < Pow256(8) && |es[i].command| < Pow256(4)
  }

  // ---------------------------------------------------------------- integers

  lemma {:induction false} NumberBelow(b: Bytes)
    ensures Number(b) < Pow256(|b|)
  {
    if b != [] { NumberBelow(b[1..]); }
  }

  lemma {:induction false} NumberOfBytes(n: nat, k: nat)
    requires n < Pow256(k)
    ensures Number(Bytesize(n, k)) == n
    decreases k
  {
    if k > 0 {
      NumberOfBytes(n / 256, k - 1);
      assert Bytesize(n, k)[1..] == Bytesize(n / 256, k - 1);
    }
  }

  lemma MagicFits()
    ensures Magic < Pow256(4)
  {
    assert Pow256(1) == 256;
    assert Pow256(2) == 65536;
    assert Pow256(3) == 0x100_0000;
    assert Pow256(4) == 0x1_0000_0000;
  }

  // ---------------------------------------------------------------- entries

  lemma SplitThree(a: Bytes, b: Bytes, c: Bytes, rest: Bytes)
    requires |a| == 8 && |b| == 4
    ensures var d := a + b + c + rest; d[..8] == a && d[8..12] == b && d[12..12 + |c|] == c && d[12 + |c|..] == rest
  {
  }

  lemma EntryFields(e: Entry, rest: Bytes)
    requires e.term < Pow256(8) && |e.command| < Pow256(4)
    ensures var d := EncodeEntry(e) + rest;
            && |d| >= EntryHead + |e.command|
            && Number(d[..8]) == e.term && Number(d[8..12]) == |e.command|
            && d[12..12 + |e.command|] == e.command && d[12 + |e.command|..] == rest
  {
    NumberOfBytes(e.term, 8);
    NumberOfBytes(|e.command|, 4);
    SplitThree(Bytesize(e.term, 8), Bytesize(|e.command|, 4), e.command, rest);
  }

  lemma EntryThenRest(e: Entry, rest: Bytes)
    requires e.term < Pow256(8) && |e.command| < Pow256(4)
    ensures DecodeEntries(EncodeEntry(e) + rest) == [e] + DecodeEntries(rest)
  {
    EntryFields(e, rest);
  }

  /** How many entries are complete within the first room bytes of their encoding. */
  function WholeEntries(es: seq<Entry>, room: nat): (m: nat)
    ensures m <= |es|
  {
    if es == [] || EntryHead + |es[0].command| > room then 0
    else 1 + WholeEntries(es[1..], room - EntryHead - |es[0].command|)
  }

  /** A first record cut short is not read. */
  lemma CutEntry(e: Entry, tail: Bytes, room: nat)
    requires e.term < Pow256(8) && |e.command| < Pow256(4)
    requires room < EntryHead + |e.command| && room <= |EncodeEntry(e) + tail|
    ensures DecodeEntries((EncodeEntry(e) + tail)[..room]) == []
  {
    var d := EncodeEntry(e) + tail;
    EntryFields(e, tail);
    NotRead(d, room, |e.command|);
  }

  lemma NotRead(d: Bytes, room: nat, length: nat)
    requires room <= |d| && room < EntryHead + length && (EntryHead <= |d| ==> Number(d[8..12]) == length)
    ensures DecodeEntries(d[..room]) == []
  {
    if EntryHead <= room { assert d[..room][8..12] == d[8..12]; }
  }

  lemma CutAfterEntry(e: Entry, tail: Bytes, room: nat)
    requires EntryHead + |e.command| <= room <= |EncodeEntry(e) + tail|
    ensures (EncodeEntry(e) + tail)[..room] == EncodeEntry(e) + tail[..room - EntryHead - |e.command|]
  {
  }

  /** A whole first record is read, and then what follows it. */
  lemma EntryThenCut(e: Entry, tail: Bytes, room: nat, rest: seq<Entry>)
    requires e.term < Pow256(8) && |e.command| < Pow256(4) && EntryHead + |e.command| <= room <= |EncodeEntry(e) + tail|
    requires DecodeEntries(tail[..room - EntryHead - |e.command|]) == rest
    ensures DecodeEntries((EncodeEntry(e) + tail)[..room]) == [e] + rest
  {
    CutAfterEntry(e, tail, room);
    EntryThenRest(e, tail[..room - EntryHead - |e.command|]);
  }

  function Size(e: Entry): nat {
    EntryHead + |e.command|
  }

  lemma PrefixStep(es: seq<Entry>, room: nat, tail: Bytes, m: nat)
    requires es != [] && es[0].term < Pow256(8) && |es[0].command| < Pow256(4)
    requires EncodeEntries(es) == EncodeEntry(es[0]) + tail && Size(es[0]) <= room <= |EncodeEntries(es)|
    requires m <= |es[1..]| && DecodeEntries(tail[..room - Size(es[0])]) == es[1..][..m]
    ensures DecodeEntries(EncodeEntries(es)[..room]) == es[..m + 1]
  {
    EntryThenCut(es[0], tail, room, es[1..][..m]);
    FirstAndMore(es, m);
  }

  lemma EncodeFirst(es: seq<Entry>, tail: Bytes)
    requires es != [] && tail == EncodeEntries(es[1..])
    ensures EncodeEntries(es) == EncodeEntry(es[0]) + tail
  {
  }

  lemma WholeFirst(es: seq<Entry>, room: nat)
    requires es != []
    ensures WholeEntries(es, room) == if Size(es[0]) > room then 0 else 1 + WholeEntries(es[1..], room - Size(es[0]))
  {
  }

  lemma CutFirst(es: seq<Entry>, room: nat)
    requires es != [] && es[0].term < Pow256(8) && |es[0].command| < Pow256(4)
    requires room <= |EncodeEntries(es)| && room < Size(es[0])
    ensures DecodeEntries(EncodeEntries(es)[..room]) == [] == es[..WholeEntries(es, room)]
  {
    CutEntry(es[0], EncodeEntries(es[1..]), room);
  }

  /** Reading back any initial part of the entry records gives the entries that are complete in it. */
  lemma {:induction false} EntriesPrefix(es: seq<Entry>, room: nat)
    requires EntriesFit(es) && room <= |EncodeEntries(es)|
    ensures DecodeEntries(EncodeEntries(es)[..room]) == es[..WholeEntries(es, room)]
    decreases |es|
  {
    if es == [] {
    } else if Size(es[0]) <= room {
      var tail := EncodeEntries(es[1..]);
      var m := WholeEntries(es[1..], room - Size(es[0]));
      EntriesPrefix(es[1..], room - Size(es[0]));
      WholeFirst(es, room);
      EncodeFirst(es, tail);
      PrefixStep(es, room, tail, m);
    } else {
      CutFirst(es, room);
    }
  }

  lemma FirstAndMore(es: seq<Entry>, m: nat)
    requires es != [] && m <= |es[1..]|
    ensures es[..m + 1] == [es[0]] + es[1..][..m]
  {
  }

  lemma {:induction false} AllWhole(es: seq<Entry>)
    ensures WholeEntries(es, |EncodeEntries(es)|) == |es|
  {
    if es != [] { AllWhole(es[1..]); }
  }

  lemma EncodeSplit(e: Entry, es: seq<Entry>)
    ensures EncodeEntries([e] + es) == EncodeEntry(e) + EncodeEntries(es)
  {
    assert ([e] + es)[1..] == es;
  }

  lemma PrefixLength(es: seq<Entry>, m: nat)
    requires 0 < m <= |es|
    ensures |EncodeEntries(es[..m])| == EntryHead + |es[0].command| + |EncodeEntries(es[1..][..m - 1])|
  {
    FirstAndMore(es, m - 1);
    EncodeSplit(es[0], es[1..][..m - 1]);
  }

  lemma LongestStep(es: seq<Entry>, room: nat, m: nat)
    requires 0 < m <= |es|
    requires Size(es[0]) <= room ==>
               (|EncodeEntries(es[1..][..m - 1])| <= room - Size(es[0])
                <==> m - 1 <= WholeEntries(es[1..], room - Size(es[0])))
    ensures |EncodeEntries(es[..m])| <= room <==> m <= WholeEntries(es, room)
  {
    PrefixLength(es, m);
    WholeFirst(es, room);
  }

  /** The number of complete entries is the greatest that fits. */
  lemma {:induction false} WholeIsLongest(es: seq<Entry>, room: nat, m: nat)
    requires m <= |es|
    ensures |EncodeEntries(es[..m])| <= room <==> m <= WholeEntries(es, room)
    decreases |es|
  {
    if m == 0 {
      assert es[..0] == [];
    } else {
      if Size(es[0]) <= room { WholeIsLongest(es[1..], room - Size(es[0]), m - 1); }
      LongestStep(es, room, m);
    }
  }

  // ---------------------------------------------------------------- whole files

  lemma SplitFour(a: Bytes, b: Bytes, c: Bytes, d: Bytes, rest: Bytes)
    requires |a| == 4 && |b| == 8 && |c| == 8 && |d| == 4
    ensures var w := a + b + c + d + rest;
            w[..4] == a && w[4..12] == b && w[12..20] == c && w[20..24] == d && w[24..] == rest
  {
  }

  lemma HeaderFields(s: LogState, rest: Bytes)
    requires Fits(s)
    ensures var d := EncodeHeader(s) + rest;
            && HasMagic(d) && Number(d[4..12]) == s.snapIndex && Number(d[12..20]) == s.snapTerm
            && Number(d[20..24]) == |s.snapData| && d[24..] == rest
  {
    MagicFits();
    NumberOfBytes(Magic, 4);
    NumberOfBytes(s.snapIndex, 8);
    NumberOfBytes(s.snapTerm, 8);
    NumberOfBytes(|s.snapData|, 4);
    SplitFour(Bytesize(Magic, 4), Bytesize(s.snapIndex, 8), Bytesize(s.snapTerm, 8), Bytesize(|s.snapData|, 4), rest);
  }

  /** What is read back from a log file cut off anywhere: every case. */
  lemma TornLogFile(s: LogState, cut: nat)
    requires Fits(s) && cut <= |Encode(s)|
    ensures var r := Decode(Encode(s)[..cut]);
            var payload := HeaderSize + |s.snapData|;
            if cut < HeaderSize then r == EmptyLog
            else if cut < payload then r == LogState(s.snapIndex, s.snapTerm, [], [])
            else r == s.(entries := s.entries[..WholeEntries(s.entries, cut - payload)])
  {
    var payload := HeaderSize + |s.snapData|;
    if cut < HeaderSize {
      ShortFile(s, cut);
    } else if cut < payload {
      TornPayload(s, cut - HeaderSize);
      CutInSecond(EncodeHeader(s), s.snapData, EncodeEntries(s.entries), cut);
    } else {
      TornEntries(s, cut - payload);
      CutInThird(EncodeHeader(s), s.snapData, EncodeEntries(s.entries), cut);
    }
  }

  lemma CutInSecond(a: Bytes, b: Bytes, c: Bytes, cut: nat)
    requires |a| <= cut <= |a| + |b|
    ensures (a + b + c)[..cut] == a + b[..cut - |a|]
  {
  }

  lemma CutInThird(a: Bytes, b: Bytes, c: Bytes, cut: nat)
    requires |a| + |b| <= cut <= |a| + |b| + |c|
    ensures (a + b + c)[..cut] == a + (b + c[..cut - |a| - |b|])
  {
  }

  lemma TornPayload(s: LogState, n: nat)
    requires Fits(s) && n < |s.snapData|
    ensures Decode(EncodeHeader(s) + s.snapData[..n]) == LogState(s.snapIndex, s.snapTerm, [], [])
  {
    HeaderFields(s, s.snapData[..n]);
  }

  lemma TornEntries(s: LogState, room: nat)
    requires Fits(s) && room <= |EncodeEntries(s.entries)|
    ensures Decode(EncodeHeader(s) + (s.snapData + EncodeEntries(s.entries)[..room]))
            == s.(entries := s.entries[..WholeEntries(s.entries, room)])
  {
    var rest := s.snapData + EncodeEntries(s.entries)[..room];
    HeaderFields(s, rest);
    BodyFields(s, rest, room);
    EntriesPrefix(s.entries, room);
  }

  lemma BodyFields(s: LogState, rest: Bytes, room: nat)
    requires room <= |EncodeEntries(s.entries)| && rest == s.snapData + EncodeEntries(s.entries)[..room]
    ensures var d := EncodeHeader(s) + rest;
            var len := |s.snapData|;
            d[24..24 + len] == s.snapData && d[24 + len..] == EncodeEntries(s.entries)[..room]
  {
    AfterHead(EncodeHeader(s), s.snapData, EncodeEntries(s.entries)[..room]);
  }

  lemma AfterHead(a: Bytes, b: Bytes, c: Bytes)
    requires |a| == HeaderSize
    ensures var d := a + (b + c); d[24..24 + |b|] == b && d[24 + |b|..] == c
  {
  }

  /** A file cut inside its header reads as an empty log, whether or not the magic survived. */
  lemma ShortFile(s: LogState, cut: nat)
    requires Fits(s) && cut < HeaderSize && cut <= |Encode(s)|
    ensures Decode(Encode(s)[..cut]) == EmptyLog
  {
    var d := Encode(s)[..cut];
    if cut >= 4 {
      HeaderFields(s, s.snapData + EncodeEntries(s.entries));
      assert d[..4] == (EncodeHeader(s) + (s.snapData + EncodeEntries(s.entries)))[..4];
      assert HasMagic(d);
    }
  }

  /** A log read back from what was written is the same log. */
  lemma LogFileRoundTrip(s: LogState)
    requires Fits(s)
    ensures Decode(Encode(s)) == s
  {
    TornLogFile(s, |Encode(s)|);
    AllWhole(s.entries);
    assert Encode(s)[..|Encode(s)|] == Encode(s);
    assert |Encode(s)| - HeaderSize - |s.snapData| == |EncodeEntries(s.entries)|;
  }

  // ---------------------------------------------------------------- term and vote

  /** A 32-bit signed integer in two's complement. */
  function Unsigned32(v: int): nat
    requires -0x8000_0000 <= v < 0x8000_0000
  {
    if v < 0 then v + 0x1_0000_0000 else v
  }

  function Signed32(n: nat): int {
    if n < 0x8000_0000 then n else n - 0x1_0000_0000
  }

  function EncodeVote(term: nat, votedFor: int): (r: Bytes)
    requires -0x8000_0000 <= votedFor < 0x8000_0000
    ensures |r| == 12
  {
    Bytesize(term, 8) + Bytesize(Unsigned32(votedFor), 4)
  }

  /** The stored term and vote; anything but a full record reads as a first start. */
  function DecodeVote(data: Bytes): (r: (nat, int))
    ensures -0x8000_0000 <= r.1 < 0x8000_0000
  {
    VoteFits(data);
    if |data| < 12 then (0, NoVote) else (Number(data[..8]), Signed32(Number(data[8..12])))
  }

  lemma VoteFits(data: Bytes)
    ensures |data| >= 12 ==> -0x8000_0000 <= Signed32(Number(data[8..12])) < 0x8000_0000
  {
    if |data| >= 12 {
      NumberBelow(data[8..12]);
      FourBytes();
    }
  }

  lemma FourBytes()
    ensures Pow256(4) == 0x1_0000_0000
  {
    assert Pow256(1) == 256 && Pow256(2) == 65536 && Pow256(3) == 0x100_0000;
  }

  lemma VoteFileRoundTrip(term: nat, votedFor: int)
    requires term < Pow256(8) && -0x8000_0000 <= votedFor < 0x8000_0000
    ensures DecodeVote(EncodeVote(term, votedFor)) == (term, votedFor)
  {
    var d := EncodeVote(term, votedFor);
    MagicFits();
    FourBytes();
    NumberOfBytes(term, 8);
    NumberOfBytes(Unsigned32(votedFor), 4);
    assert d[..8] == Bytesize(term, 8) && d[8..12] == Bytesize(Unsigned32(votedFor), 4);
  }
}
