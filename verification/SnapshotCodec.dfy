/**
 * A codec as the theorems about coordinators ask for: one that reads back what
 * it wrote. Numbers are written in unary, one byte a unit, so that where each
 * field ends can be told.
 */
module SnapshotCodec {
  import opened RaftTypes
  import opened Wrappers
  import opened Topology
  import opened Coordinator
  import opened Convergence
  import opened StaleSnapshot

  function Unary(n: nat): Bytes {
    if n == 0 then [0] else [1] + Unary(n - 1)
  }

  function Sign(i: int): Byte {
    if i < 0 then 1 else 0
  }

  function Abs(i: int): nat {
    if i < 0 then -i else i
  }

  function Number(i: int): Bytes {
    [Sign(i)] + Unary(Abs(i))
  }

  function Text(s: string): Bytes {
    if s == [] then [0] else [1] + Unary(s[0] as nat) + Text(s[1..])
  }

  function Record(m: Member): Bytes {
    Number(m.shard) + (Number(m.replica) + (Text(m.host) + (Number(m.port) + ([if m.primary then 1 else 0] + Unary(m.epoch)))))
  }

  function Dump(v: seq<Member>): Bytes {
    if v == [] then [0] else [1] + (Record(v[0]) + Dump(v[1..]))
  }

  // ---------------------------------------------------------------- what is written can be told apart

  lemma Front(a: Bytes, b: Bytes, x: Byte, y: Byte)
    requires [x] + a == [y] + b
    ensures x == y && a == b
  {
    assert ([x] + a)[0] == x && ([y] + b)[0] == y;
    assert ([x] + a)[1..] == a && ([y] + b)[1..] == b;
  }

  lemma {:induction false} UnaryEnds(m: nat, n: nat, r: Bytes, s: Bytes)
    requires Unary(m) + r == Unary(n) + s
    ensures m == n && r == s
  {
    var x, y: Byte := if m == 0 then 0 else 1, if n == 0 then 0 else 1;
    var a, b := if m == 0 then r else Unary(m - 1) + r, if n == 0 then s else Unary(n - 1) + s;
    assert Unary(m) + r == [x] + a && Unary(n) + s == [y] + b;
    Front(a, b, x, y);
    if m > 0 { UnaryEnds(m - 1, n - 1, r, s); }
  }

  lemma NumberEnds(i: int, j: int, r: Bytes, s: Bytes)
    requires Number(i) + r == Number(j) + s
    ensures i == j && r == s
  {
    assert Number(i) + r == [Sign(i)] + (Unary(Abs(i)) + r) && Number(j) + s == [Sign(j)] + (Unary(Abs(j)) + s);
    Front(Unary(Abs(i)) + r, Unary(Abs(j)) + s, Sign(i), Sign(j));
    UnaryEnds(Abs(i), Abs(j), r, s);
  }

  lemma {:induction false} TextEnds(a: string, b: string, r: Bytes, s: Bytes)
    requires Text(a) + r == Text(b) + s
    ensures a == b && r == s
  {
    var x, y: Byte := if a == [] then 0 else 1, if b == [] then 0 else 1;
    var p := if a == [] then r else Unary(a[0] as nat) + (Text(a[1..]) + r);
    var q := if b == [] then s else Unary(b[0] as nat) + (Text(b[1..]) + s);
    assert Text(a) + r == [x] + p && Text(b) + s == [y] + q;
    Front(p, q, x, y);
    if a != [] {
      UnaryEnds(a[0] as nat, b[0] as nat, Text(a[1..]) + r, Text(b[1..]) + s);
      TextEnds(a[1..], b[1..], r, s);
      assert a == [a[0]] + a[1..] && b == [b[0]] + b[1..];
    }
  }

  /** Where a record's parts end, given what follows it. */
  lemma Parts(m: Member, r: Bytes)
    ensures Record(m) + r == Number(m.shard) + (Number(m.replica) + (Text(m.host) + (Number(m.port)
              + ([if m.primary then 1 else 0] + (Unary(m.epoch) + r)))))
  {
  }

  lemma RecordEnds(m: Member, n: Member, r: Bytes, s: Bytes)
    requires Record(m) + r == Record(n) + s
    ensures m == n && r == s
  {
    Parts(m, r);
    Parts(n, s);
    var x, y: Byte := if m.primary then 1 else 0, if n.primary then 1 else 0;
    var a5, b5 := Unary(m.epoch) + r, Unary(n.epoch) + s;
    var a4, b4 := [x] + a5, [y] + b5;
    var a3, b3 := Number(m.port) + a4, Number(n.port) + b4;
    var a2, b2 := Text(m.host) + a3, Text(n.host) + b3;
    NumberEnds(m.shard, n.shard, Number(m.replica) + a2, Number(n.replica) + b2);
    NumberEnds(m.replica, n.replica, a2, b2);
    TextEnds(m.host, n.host, a3, b3);
    NumberEnds(m.port, n.port, a4, b4);
    Front(a5, b5, x, y);
    UnaryEnds(m.epoch, n.epoch, r, s);
  }

  lemma {:induction false} DumpTells(v: seq<Member>, w: seq<Member>)
    requires Dump(v) == Dump(w)
    ensures v == w
  {
    var x, y: Byte := if v == [] then 0 else 1, if w == [] then 0 else 1;
    var a := if v == [] then [] else Record(v[0]) + Dump(v[1..]);
    var b := if w == [] then [] else Record(w[0]) + Dump(w[1..]);
    Front(a, b, x, y);
    if v != [] {
      RecordEnds(v[0], w[0], Dump(v[1..]), Dump(w[1..]));
      DumpTells(v[1..], w[1..]);
      assert v == [v[0]] + v[1..] && w == [w[0]] + w[1..];
    }
  }

  // ---------------------------------------------------------------- the codec

  ghost function Load(d: Bytes): Option<seq<Member>> {
    if exists v :: Dump(v) == d then var v :| Dump(v) == d; Some(v) else None
  }

  ghost function Parse(d: Bytes): Option<Command> {
    if d == Grow then Some(AddShard(2, [Spec(0, "b", 1, true)])) else Some(SetPrimary(1, 0))
  }

  /** There is a codec that reads back what it wrote, and one that reads the log of the stale snapshot's run. */
  lemma SetupExists() returns (u: Setup)
    ensures RoundTrips(u.codec) && Suits(u)
  {
    u := Setup(Codec(d => Parse(d), v => Dump(v), d => Load(d)), []);
    forall v ensures u.codec.load(u.codec.dump(v)) == Some(v) && u.codec.dump(v) != [] {
      var w :| Load(Dump(v)) == Some(w) && Dump(w) == Dump(v);
      DumpTells(v, w);
    }
    assert Filler != Grow by { assert Filler[0] != Grow[0]; }
  }
}
