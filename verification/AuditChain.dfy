/**
 The tamper-evident audit chain (master/src/auth.rs, record_audit in
 master/src/db/repo.rs, verify_audit_chain in master/src/api/mod.rs). Texts are
 their UTF-8 bytes. The hash function is a parameter with 32-byte results; where
 it matters, results either hold or come with two chain inputs that collide.
 */
module AuditChain {
  import opened Arithmetic
  import opened Counting
  import opened Wrappers

  newtype byte = b: int | 0 <= b < 256

  type Bytes = seq<byte>

  // ------------------------------------------------------------ fixed integers

  function Pow256(n: nat): nat {
    if n == 0 then 1 else 256 * Pow256(n - 1)
  }

  function BigEndian(u: nat, n: nat): (r: Bytes)
    ensures |r| == n
  {
    if n == 0 then [] else BigEndian(u / 256, n - 1) + [(u % 256) as byte]
  }

  function FromBigEndian(s: Bytes): nat {
    if s == [] then 0 else 256 * FromBigEndian(s[..|s| - 1]) + s[|s| - 1] as nat
  }

  lemma {:induction false} BigEndianRoundTrip(u: nat, n: nat)
    requires u < Pow256(n)
    ensures FromBigEndian(BigEndian(u, n)) == u
  {
    if n > 0 {
      BigEndianRoundTrip(u / 256, n - 1);
      assert BigEndian(u, n)[..n - 1] == BigEndian(u / 256, n - 1);
    }
  }

  lemma DivideTwice(u: nat, p: nat)
    requires p > 0
    ensures u / 256 / p == u / (256 * p)
  {
    var q, r := u / (256 * p), u % (256 * p);
    assert u == (256 * p) * q + r;
    assert u == 256 * (q * p) + r;
    assert u / 256 == q * p + r / 256;
    DivisionIs(u / 256, q, p, r / 256);
  }

  // The most significant byte comes first.
  lemma {:induction false} BigEndianDigits(u: nat, n: nat, i: nat)
    requires i < n
    ensures Pow256(n - 1 - i) > 0 && BigEndian(u, n)[i] as nat == u / Pow256(n - 1 - i) % 256
  {
    PowPositive(n - 1 - i);
    if i < n - 1 {
      BigEndianDigits(u / 256, n - 1, i);
      DivideTwice(u, Pow256(n - 2 - i));
    }
  }

  lemma {:induction false} PowPositive(n: nat)
    ensures Pow256(n) > 0
  {
    if n > 0 {
      PowPositive(n - 1);
    }
  }

  lemma {:induction false} FromBigEndianRoundTrip(s: Bytes)
    ensures FromBigEndian(s) < Pow256(|s|)
    ensures BigEndian(FromBigEndian(s), |s|) == s
  {
    if s != [] {
      FromBigEndianRoundTrip(s[..|s| - 1]);
    }
  }

  const TWO_63 := 0x8000_0000_0000_0000
  const TWO_64 := 0x1_0000_0000_0000_0000
  const TWO_56 := 0x100_0000_0000_0000

  lemma Pow256Values()
    ensures Pow256(8) == TWO_64 && Pow256(7) == TWO_56
  {
    assert Pow256(1) == 256 && Pow256(2) == 65536 && Pow256(3) == 16777216;
    assert Pow256(4) == 4294967296 && Pow256(5) == 1099511627776 && Pow256(6) == 281474976710656;
  }

  type i64 = x: int | -0x8000_0000_0000_0000 <= x < 0x8000_0000_0000_0000

  // i64::to_be_bytes, two's complement
  function Int64(x: i64): Bytes {
    BigEndian(if x < 0 then x + TWO_64 else x, 8)
  }

  lemma Int64Injective(x: i64, y: i64)
    requires Int64(x) == Int64(y)
    ensures x == y
  {
    Pow256Values();
    BigEndianRoundTrip(if x < 0 then x + TWO_64 else x, 8);
    BigEndianRoundTrip(if y < 0 then y + TWO_64 else y, 8);
  }

  // Every eight bytes are some i64.
  lemma Int64Onto(s: Bytes) returns (x: i64)
    requires |s| == 8
    ensures Int64(x) == s
  {
    Pow256Values();
    FromBigEndianRoundTrip(s);
    var u := FromBigEndian(s);
    x := if u >= TWO_63 then u - TWO_64 else u;
  }

  lemma {:induction false} LeadingZero(u: nat, n: nat)
    requires n > 0 && u < Pow256(n - 1)
    ensures BigEndian(u, n)[0] == 0
  {
    if n > 1 {
      LeadingZero(u / 256, n - 1);
    }
  }

  // ------------------------------------------------------------- serialization

  datatype Row = Row(
    id: i64,
    actor: Option<Bytes>,
    action: Bytes,
    resourceType: Bytes,
    resourceId: Option<Bytes>,
    details: Bytes,
    createdMicros: i64)

  function Fields(r: Row): seq<Bytes> {
    [r.actor.GetOr([]), r.action, r.resourceType, r.resourceId.GetOr([]), r.details]
  }

  function Terminated(fields: seq<Bytes>): Bytes {
    if fields == [] then [] else fields[0] + [0] + Terminated(fields[1..])
  }

  // What is fed to the hasher.
  function Serialize(prev: Option<Bytes>, r: Row): Bytes {
    prev.GetOr([]) + Int64(r.id) + Terminated(Fields(r)) + Int64(r.createdMicros)
  }

  // The hasher's updates, in order.
  method AuditChainHash(hash: Bytes -> Bytes, prev: Option<Bytes>, r: Row) returns (h: Bytes)
    ensures h == hash(Serialize(prev, r))
  {
    var fed: Bytes := [];
    if prev.Some? {
      fed := fed + prev.value;
    }
    fed := fed + Int64(r.id);
    ghost var head := fed;
    var fields := Fields(r);
    for i := 0 to |fields|
      invariant fed + Terminated(fields[i..]) == head + Terminated(fields)
    {
      ghost var rest := Terminated(fields[i + 1..]);
      assert fields[i..][1..] == fields[i + 1..];
      assert fed + (fields[i] + [0] + rest) == fed + fields[i] + [0] + rest;
      fed := fed + fields[i];
      fed := fed + [0];
    }
    assert fed + Terminated([]) == fed;
    assert head == prev.GetOr([]) + Int64(r.id);
    fed := fed + Int64(r.createdMicros);
    assert fed == Serialize(prev, r);
    h := hash(fed);
  }

  predicate NulFree(s: Bytes) {
    forall i :: 0 <= i < |s| ==> s[i] != 0
  }

  // PostgreSQL text and serialized JSON hold no NUL.
  predicate RowOk(r: Row) {
    forall i :: 0 <= i < 5 ==> NulFree(Fields(r)[i])
  }

  // ----------------------------------------------------------------------- text

  predicate Tail(b: byte) {
    0x80 <= b < 0xC0
  }

  // The length of the character at the front, and 0 if there is none: the table in
  // section 4 of RFC 3629.
  function CharLength(s: Bytes): (n: nat)
    ensures n <= |s|
  {
    if |s| >= 1 && s[0] < 0x80 then 1
    else if |s| >= 2 && 0xC2 <= s[0] < 0xE0 && Tail(s[1]) then 2
    else if |s| >= 3 && 0xE0 <= s[0] < 0xF0 && Tail(s[1]) && Tail(s[2])
         && (s[0] == 0xE0 ==> s[1] >= 0xA0) && (s[0] == 0xED ==> s[1] < 0xA0) then 3
    else if |s| >= 4 && 0xF0 <= s[0] < 0xF5 && Tail(s[1]) && Tail(s[2]) && Tail(s[3])
         && (s[0] == 0xF0 ==> s[1] >= 0x90) && (s[0] == 0xF4 ==> s[1] < 0x90) then 4
    else 0
  }

  predicate Utf8(s: Bytes) {
    s == [] || (CharLength(s) > 0 && Utf8(s[CharLength(s)..]))
  }

  lemma {:induction false} Utf8Concat(s: Bytes, t: Bytes)
    requires Utf8(s) && Utf8(t)
    ensures Utf8(s + t)
  {
    if s == [] {
      assert s + t == t;
    } else {
      var n := CharLength(s);
      assert CharLength(s + t) == n;
      assert (s + t)[n..] == s[n..] + t;
      Utf8Concat(s[n..], t);
    }
  }

  // Text in front of text is text: no character reaches over the border.
  lemma {:induction false} Utf8Prefix(s: Bytes, t: Bytes)
    requires Utf8(s + t) && Utf8(t)
    ensures Utf8(s)
  {
    if s != [] {
      var n := CharLength(s + t);
      assert n <= |s|;
      assert CharLength(s) == n;
      assert (s + t)[n..] == s[n..] + t;
      Utf8Prefix(s[n..], t);
    }
  }

  // The source's fields are strings.
  predicate TextRow(r: Row) {
    RowOk(r) && forall i :: 0 <= i < 5 ==> Utf8(Fields(r)[i])
  }

  // ----------------------------------------------------------------- injectivity

  // The same entry, up to an absent against an empty optional field.
  predicate SameEntry(r: Row, s: Row) {
    && r.id == s.id && r.createdMicros == s.createdMicros
    && r.action == s.action && r.resourceType == s.resourceType && r.details == s.details
    && r.actor.GetOr([]) == s.actor.GetOr([]) && r.resourceId.GetOr([]) == s.resourceId.GetOr([])
  }

  lemma FirstField(a: Bytes, x: Bytes, b: Bytes, y: Bytes)
    requires NulFree(a) && NulFree(b) && a + [0] + x == b + [0] + y
    ensures a == b && x == y
  {
    var s, t := a + [0] + x, b + [0] + y;
    assert s[|a|] == 0 && t[|b|] == 0;
    assert forall i :: 0 <= i < |a| ==> s[i] == a[i];
    assert forall i :: 0 <= i < |b| ==> t[i] == b[i];
    assert a == s[..|a|] && b == t[..|b|];
    assert x == s[|a| + 1..] && y == t[|b| + 1..];
  }

  lemma {:induction false} TerminatedInjective(f: seq<Bytes>, g: seq<Bytes>)
    requires |f| == |g| && Terminated(f) == Terminated(g)
    requires forall i :: 0 <= i < |f| ==> NulFree(f[i]) && NulFree(g[i])
    ensures f == g
  {
    if f != [] {
      FirstField(f[0], Terminated(f[1..]), g[0], Terminated(g[1..]));
      TerminatedInjective(f[1..], g[1..]);
    }
  }

  // Where the parts of a serialization lie.
  lemma SerializeParts(p: Option<Bytes>, r: Row)
    ensures var x, n := Serialize(p, r), |p.GetOr([])|;
            |x| >= n + 16 && x[..n] == p.GetOr([]) && x[n..n + 8] == Int64(r.id)
            && x[n + 8..|x| - 8] == Terminated(Fields(r)) && x[|x| - 8..] == Int64(r.createdMicros)
  {
  }

  // With the predecessor's presence known, the bytes determine everything.
  lemma SerializeInjective(p: Option<Bytes>, r: Row, q: Option<Bytes>, s: Row)
    requires RowOk(r) && RowOk(s) && (p.Some? <==> q.Some?)
    requires p.Some? ==> |p.value| == |q.value| == 32
    requires Serialize(p, r) == Serialize(q, s)
    ensures p == q && SameEntry(r, s)
  {
    SerializeParts(p, r);
    SerializeParts(q, s);
    Int64Injective(r.id, s.id);
    Int64Injective(r.createdMicros, s.createdMicros);
    TerminatedInjective(Fields(r), Fields(s));
    assert Fields(r)[1] == Fields(s)[1] && Fields(r)[2] == Fields(s)[2] && Fields(r)[4] == Fields(s)[4];
    assert Fields(r)[0] == Fields(s)[0] && Fields(r)[3] == Fields(s)[3];
  }

  // ------------------------------------------------- presence of a predecessor

  function Nuls(s: Bytes): nat {
    if s == [] then 0 else (if s[0] == 0 then 1 else 0) + Nuls(s[1..])
  }

  lemma {:induction false} NulsConcat(a: Bytes, b: Bytes)
    ensures Nuls(a + b) == Nuls(a) + Nuls(b)
  {
    if a == [] {
      assert a + b == b;
    } else {
      assert (a + b)[1..] == a[1..] + b;
      NulsConcat(a[1..], b);
    }
  }

  lemma {:induction false} NulFreeCount(s: Bytes)
    ensures NulFree(s) <==> Nuls(s) == 0
  {
    if s != [] {
      NulFreeCount(s[1..]);
      assert forall i :: 0 < i < |s| ==> s[i] == s[1..][i - 1];
    }
  }

  lemma {:induction false} TerminatedNuls(f: seq<Bytes>)
    requires forall i :: 0 <= i < |f| ==> NulFree(f[i])
    ensures Nuls(Terminated(f)) == |f|
  {
    if f != [] {
      NulFreeCount(f[0]);
      NulsConcat(f[0] + [0], Terminated(f[1..]));
      NulsConcat(f[0], [0]);
      assert [0 as byte][1..] == [];
      TerminatedNuls(f[1..]);
    }
  }

  // What a first entry would have to have in front of its actor to serialize like
  // an entry with a predecessor.
  function Overlap(prev: Bytes, r: Row): Bytes
    requires |prev| == 32
  {
    prev[8..] + Int64(r.id)
  }

  // A first entry can serialize like an entry with a predecessor exactly when the
  // rest of that predecessor's hash and the id are text without a NUL byte.
  lemma ConfusableWithFirst(prev: Bytes, r: Row)
    requires TextRow(r) && |prev| == 32
    ensures NulFree(Overlap(prev, r)) && Utf8(Overlap(prev, r)) <==>
            exists s :: TextRow(s) && Serialize(None, s) == Serialize(Some(prev), r)
  {
    if NulFree(Overlap(prev, r)) && Utf8(Overlap(prev, r)) {
      var _ := Confusion(prev, r);
    }
    if s :| TextRow(s) && Serialize(None, s) == Serialize(Some(prev), r) {
      NoConfusion(prev, r, s);
      ConfusedActor(prev, r, s);
      Utf8Prefix(Overlap(prev, r), r.actor.GetOr([]));
    }
  }

  lemma Confusion(prev: Bytes, r: Row) returns (s: Row)
    requires TextRow(r) && |prev| == 32 && NulFree(Overlap(prev, r)) && Utf8(Overlap(prev, r))
    ensures TextRow(s) && Serialize(None, s) == Serialize(Some(prev), r)
  {
    var id := Int64Onto(prev[..8]);
    var actor := r.actor.GetOr([]);
    s := r.(id := id, actor := Some(Overlap(prev, r) + actor));
    assert Fields(r)[0] == actor;
    Utf8Concat(Overlap(prev, r), actor);
    forall i | 0 <= i < 5
      ensures NulFree(Fields(s)[i]) && Utf8(Fields(s)[i])
    {
      assert i > 0 ==> Fields(s)[i] == Fields(r)[i];
    }
    SameBytes(prev, r, s);
  }

  lemma SameBytes(prev: Bytes, r: Row, s: Row)
    requires |prev| == 32 && Int64(s.id) == prev[..8]
    requires s == r.(id := s.id, actor := Some(Overlap(prev, r) + r.actor.GetOr([])))
    ensures Serialize(None, s) == Serialize(Some(prev), r)
  {
    var actor, rest := r.actor.GetOr([]), Fields(r)[1..];
    assert Fields(s)[1..] == rest;
    var tail := [0] + Terminated(rest) + Int64(r.createdMicros);
    assert Serialize(None, s) == prev[..8] + (prev[8..] + Int64(r.id) + actor) + tail;
    assert Serialize(Some(prev), r) == prev + Int64(r.id) + actor + tail;
    assert prev == prev[..8] + prev[8..];
  }

  lemma NoConfusion(prev: Bytes, r: Row, s: Row)
    requires RowOk(r) && RowOk(s) && |prev| == 32
    requires Serialize(None, s) == Serialize(Some(prev), r)
    ensures NulFree(Overlap(prev, r))
    ensures Terminated(Fields(s)) == Overlap(prev, r) + Terminated(Fields(r))
  {
    var x, y, head := Serialize(None, s), Serialize(Some(prev), r), Overlap(prev, r);
    assert x[8..|x| - 8] == Terminated(Fields(s));
    assert y[8..|y| - 8] == head + Terminated(Fields(r));
    NulsConcat(head, Terminated(Fields(r)));
    TerminatedNuls(Fields(r));
    TerminatedNuls(Fields(s));
    NulFreeCount(head);
  }

  // Such a first entry carries hash and id in front of the actor.
  lemma ConfusedActor(prev: Bytes, r: Row, s: Row)
    requires TextRow(r) && TextRow(s) && |prev| == 32 && NulFree(Overlap(prev, r))
    requires Terminated(Fields(s)) == Overlap(prev, r) + Terminated(Fields(r))
    ensures Utf8(Overlap(prev, r) + r.actor.GetOr([])) && Utf8(r.actor.GetOr([]))
  {
    var a, b := Fields(s)[0], Fields(r)[0];
    var x, y := Terminated(Fields(s)[1..]), Terminated(Fields(r)[1..]);
    assert Overlap(prev, r) + (b + [0] + y) == (Overlap(prev, r) + b) + [0] + y;
    FirstField(a, x, Overlap(prev, r) + b, y);
  }

  // Such entries exist: a hash of letters and an id whose bytes are letters.
  lemma ConfusionHappens()
    ensures var prev: Bytes := seq(32, _ => 0x41);
            var r := Row(0x4141_4141_4141_4141, None, [], [], None, [], 0);
            exists s :: TextRow(s) && Serialize(None, s) == Serialize(Some(prev), r)
  {
    var prev: Bytes := seq(32, _ => 0x41);
    var r := Row(0x4141_4141_4141_4141, None, [], [], None, [], 0);
    Letters(r.id);
    AsciiIsText(Overlap(prev, r));
    ConfusableWithFirst(prev, r);
  }

  lemma {:induction false} AsciiIsText(s: Bytes)
    requires forall i :: 0 <= i < |s| ==> s[i] < 0x80
    ensures Utf8(s)
  {
    if s != [] {
      AsciiIsText(s[1..]);
    }
  }

  lemma Letters(id: i64)
    requires id == 0x4141_4141_4141_4141
    ensures forall i :: 0 <= i < 8 ==> Int64(id)[i] == 0x41
  {
    assert BigEndian(0x41, 1) == [0x41];
    assert BigEndian(0x4141, 2) == [0x41, 0x41];
    assert BigEndian(0x41_4141, 3) == [0x41, 0x41, 0x41];
    assert BigEndian(0x4141_4141, 4) == [0x41, 0x41, 0x41, 0x41];
    assert BigEndian(0x41_4141_4141, 5) == [0x41, 0x41, 0x41, 0x41, 0x41];
    assert BigEndian(0x4141_4141_4141, 6) == [0x41, 0x41, 0x41, 0x41, 0x41, 0x41];
    assert BigEndian(0x41_4141_4141_4141, 7) == [0x41, 0x41, 0x41, 0x41, 0x41, 0x41, 0x41];
  }

  // Ids below 2^56, as a serial column hands them out, always contain one.
  lemma SmallIdHasNul(id: i64)
    requires 0 <= id < TWO_56
    ensures !NulFree(Int64(id))
  {
    Pow256Values();
    LeadingZero(id, 8);
  }

  // -------------------------------------------------------------------- chain

  ghost predicate HashOk(hash: Bytes -> Bytes) {
    forall x :: |hash(x)| == 32
  }

  // The hash of the last entry of a chain, chained through all before it.
  function Digest(hash: Bytes -> Bytes, rows: seq<Row>): Option<Bytes>
    decreases |rows|
  {
    if rows == [] then None
    else Some(hash(Serialize(Digest(hash, rows[..|rows| - 1]), rows[|rows| - 1])))
  }

  // The bytes hashed for entry i.
  function Input(hash: Bytes -> Bytes, rows: seq<Row>, i: nat): Bytes
    requires i < |rows|
  {
    Serialize(Digest(hash, rows[..i]), rows[i])
  }

  predicate SameChain(a: seq<Row>, b: seq<Row>) {
    |a| == |b| && forall i :: 0 <= i < |a| ==> SameEntry(a[i], b[i])
  }

  predicate SmallIds(rows: seq<Row>) {
    forall i :: 0 <= i < |rows| ==> 0 <= rows[i].id < TWO_56
  }

  // Two hash inputs of the chains that differ and collide.
  ghost predicate Collide(hash: Bytes -> Bytes, a: seq<Row>, i: nat, b: seq<Row>, j: nat) {
    i < |a| && j < |b| && Input(hash, a, i) != Input(hash, b, j) && hash(Input(hash, a, i)) == hash(Input(hash, b, j))
  }

  predicate RowsOk(rows: seq<Row>) {
    forall i :: 0 <= i < |rows| ==> RowOk(rows[i])
  }

  // Chains that end in the same hash are the same entry by entry, or two of
  // their own inputs collide, and the result says which. The lengths need not be
  // equal when ids are small.
  lemma {:induction false} ChainIsBinding(hash: Bytes -> Bytes, a: seq<Row>, b: seq<Row>)
    returns (collision: Option<(nat, nat)>)
    requires HashOk(hash) && RowsOk(a) && RowsOk(b)
    requires |a| == |b| || (SmallIds(a) && SmallIds(b))
    requires Digest(hash, a) == Digest(hash, b)
    ensures collision.None? ==> SameChain(a, b)
    ensures collision.Some? ==> Collide(hash, a, collision.value.0, b, collision.value.1)
    decreases |a|
  {
    if a == [] || b == [] {
      collision := None;
    } else if Input(hash, a, |a| - 1) != Input(hash, b, |b| - 1) {
      collision := Some((|a| - 1, |b| - 1));
    } else {
      SameTail(hash, a, b);
      collision := ChainIsBinding(hash, a[..|a| - 1], b[..|b| - 1]);
      if collision.Some? {
        CollideLifts(hash, a, b, collision.value.0, collision.value.1);
      } else {
        SameChainExtends(a, b);
      }
    }
  }

  lemma CollideLifts(hash: Bytes -> Bytes, a: seq<Row>, b: seq<Row>, i: nat, j: nat)
    requires a != [] && b != [] && Collide(hash, a[..|a| - 1], i, b[..|b| - 1], j)
    ensures Collide(hash, a, i, b, j)
  {
    assert a[..|a| - 1][..i] == a[..i];
    assert b[..|b| - 1][..j] == b[..j];
  }

  lemma SameChainExtends(a: seq<Row>, b: seq<Row>)
    requires a != [] && b != []
    requires SameChain(a[..|a| - 1], b[..|b| - 1]) && SameEntry(a[|a| - 1], b[|b| - 1])
    ensures SameChain(a, b)
  {
    forall i | 0 <= i < |a| - 1
      ensures SameEntry(a[i], b[i])
    {
      assert SameEntry(a[..|a| - 1][i], b[..|b| - 1][i]);
    }
  }

  // Equal last inputs give equal last entries and equal hashes before them.
  lemma SameTail(hash: Bytes -> Bytes, a: seq<Row>, b: seq<Row>)
    requires HashOk(hash) && RowsOk(a) && RowsOk(b) && a != [] && b != []
    requires |a| == |b| || (SmallIds(a) && SmallIds(b))
    requires Input(hash, a, |a| - 1) == Input(hash, b, |b| - 1)
    ensures SameEntry(a[|a| - 1], b[|b| - 1])
    ensures Digest(hash, a[..|a| - 1]) == Digest(hash, b[..|b| - 1])
  {
    var m, n := |a| - 1, |b| - 1;
    var p, q := Digest(hash, a[..m]), Digest(hash, b[..n]);
    SamePresence(p, a[m], q, b[n], |a| == |b|);
    SerializeInjective(p, a[m], q, b[n]);
  }

  lemma SamePresence(p: Option<Bytes>, r: Row, q: Option<Bytes>, s: Row, known: bool)
    requires RowOk(r) && RowOk(s) && Serialize(p, r) == Serialize(q, s)
    requires (p.Some? ==> |p.value| == 32) && (q.Some? ==> |q.value| == 32)
    requires if known then p.Some? <==> q.Some? else 0 <= r.id < TWO_56 && 0 <= s.id < TWO_56
    ensures p.Some? <==> q.Some?
  {
    if p.Some? && q.None? {
      SmallIdHead(p.value, r.id);
      NoConfusion(p.value, r, s);
    }
    if p.None? && q.Some? {
      SmallIdHead(q.value, s.id);
      NoConfusion(q.value, s, r);
    }
  }

  lemma SmallIdHead(prev: Bytes, id: i64)
    requires |prev| == 32 && 0 <= id < TWO_56
    ensures !NulFree(prev[8..] + Int64(id))
  {
    SmallIdHasNul(id);
    var head := prev[8..] + Int64(id);
    assert forall i :: 0 <= i < 8 ==> head[24 + i] == Int64(id)[i];
  }

  // ------------------------------------------------------- recording, verifying

  datatype Stored = Stored(row: Row, hash: Option<Bytes>)

  function Last(table: seq<Stored>): Option<Bytes> {
    if table == [] then None else table[|table| - 1].hash
  }

  // record_audit: the new row is chained to the stored hash of the last one.
  function Recorded(hash: Bytes -> Bytes, table: seq<Stored>, row: Row): seq<Stored> {
    table + [Stored(row, Some(hash(Serialize(Last(table), row))))]
  }

  // Row i bears no hash, or the one that follows from the row before it.
  predicate LinkOk(hash: Bytes -> Bytes, table: seq<Stored>, i: nat)
    requires i < |table|
  {
    table[i].hash.Some? ==> table[i].hash.value == hash(Serialize(Last(table[..i]), table[i].row))
  }

  predicate Intact(hash: Bytes -> Bytes, table: seq<Stored>) {
    forall i :: 0 <= i < |table| ==> LinkOk(hash, table, i)
  }

  function Hashed(table: seq<Stored>): nat {
    Count(table, (s: Stored) => s.hash.Some?)
  }

  // The position of the first broken link, if there is one, and how many hashes were
  // looked at on the way.
  method Verify(hash: Bytes -> Bytes, table: seq<Stored>) returns (brokenAt: Option<nat>, checked: nat)
    ensures brokenAt.None? <==> Intact(hash, table)
    ensures brokenAt.Some? ==> brokenAt.value < |table| && !LinkOk(hash, table, brokenAt.value)
                               && forall i :: 0 <= i < brokenAt.value ==> LinkOk(hash, table, i)
    ensures checked == Hashed(if brokenAt.Some? then table[..brokenAt.value + 1] else table)
  {
    var prev: Option<Bytes> := None;
    checked := 0;
    for i := 0 to |table|
      invariant prev == Last(table[..i])
      invariant forall j :: 0 <= j < i ==> LinkOk(hash, table, j)
      invariant checked == Hashed(table[..i])
    {
      assert table[..i + 1] == table[..i] + [table[i]];
      CountAppend(table[..i], table[i], (s: Stored) => s.hash.Some?);
      match table[i].hash {
        case None => prev := None;
        case Some(stored) =>
          var expected := AuditChainHash(hash, prev, table[i].row);
          checked := checked + 1;
          if expected != stored {
            assert !LinkOk(hash, table, i);
            return Some(i), checked;
          }
          prev := Some(stored);
      }
    }
    assert table[..|table|] == table;
    brokenAt := None;
  }

  // Recording keeps the chain intact.
  lemma RecordKeepsIntact(hash: Bytes -> Bytes, table: seq<Stored>, row: Row)
    requires Intact(hash, table)
    ensures Intact(hash, Recorded(hash, table, row))
  {
    var t := Recorded(hash, table, row);
    forall i | 0 <= i < |t|
      ensures LinkOk(hash, t, i)
    {
      assert t[..i] == table[..i];
      if i < |table| {
        assert LinkOk(hash, table, i);
      } else {
        assert table[..i] == table;
      }
    }
  }

  function Rows(table: seq<Stored>): seq<Row> {
    seq(|table|, i requires 0 <= i < |table| => table[i].row)
  }

  // The rows since the last one without a hash.
  function Chained(table: seq<Stored>): seq<Stored> {
    if table == [] || table[|table| - 1].hash.None? then []
    else Chained(table[..|table| - 1]) + [table[|table| - 1]]
  }

  lemma {:induction false} ChainedMeans(table: seq<Stored>)
    ensures var n := |Chained(table)|;
            && n <= |table| && Chained(table) == table[|table| - n..]
            && (forall i :: |table| - n <= i < |table| ==> table[i].hash.Some?)
            && (n < |table| ==> table[|table| - n - 1].hash.None?)
    decreases |table|
  {
    if table != [] && table[|table| - 1].hash.Some? {
      ChainedMeans(table[..|table| - 1]);
    }
  }

  lemma IntactPrefix(hash: Bytes -> Bytes, table: seq<Stored>)
    requires Intact(hash, table) && table != []
    ensures Intact(hash, table[..|table| - 1])
  {
    var init := table[..|table| - 1];
    forall i | 0 <= i < |init|
      ensures LinkOk(hash, init, i)
    {
      assert init[..i] == table[..i];
      assert LinkOk(hash, table, i);
    }
  }

  // The last hash of a verified table is the digest of the rows chained to it.
  lemma {:induction false} IntactIsDigest(hash: Bytes -> Bytes, table: seq<Stored>)
    requires Intact(hash, table)
    ensures Last(table) == Digest(hash, Rows(Chained(table)))
    decreases |table|
  {
    if table != [] && table[|table| - 1].hash.Some? {
      var n := |table| - 1;
      IntactPrefix(hash, table);
      IntactIsDigest(hash, table[..n]);
      assert Rows(Chained(table))[..|Chained(table)| - 1] == Rows(Chained(table[..n]));
      assert LinkOk(hash, table, n);
    }
  }

  // A recorded row follows what is there, and its hash is the digest of the rows
  // chained so far and of itself.
  lemma RecordChains(hash: Bytes -> Bytes, table: seq<Stored>, row: Row)
    requires Intact(hash, table)
    ensures var t := Recorded(hash, table, row);
            && Rows(t) == Rows(table) + [row]
            && |t| == |table| + 1 && t[..|table|] == table
            && Rows(Chained(t)) == Rows(Chained(table)) + [row]
            && Last(t) == Digest(hash, Rows(Chained(table)) + [row])
  {
    var t := Recorded(hash, table, row);
    assert t[..|table|] == table;
    RecordKeepsIntact(hash, table, row);
    IntactIsDigest(hash, t);
  }

  // The table after recording the rows one after the other.
  function RecordedAll(hash: Bytes -> Bytes, rows: seq<Row>): seq<Stored>
    decreases |rows|
  {
    if rows == [] then [] else Recorded(hash, RecordedAll(hash, rows[..|rows| - 1]), rows[|rows| - 1])
  }

  // A table that was only ever written by recording verifies, holds the recorded rows,
  // all of them chained, and ends in the digest of all of them.
  lemma {:induction false} RecordingChainsAll(hash: Bytes -> Bytes, rows: seq<Row>)
    ensures var t := RecordedAll(hash, rows);
            && Intact(hash, t)
            && Rows(t) == Rows(Chained(t)) == rows
            && Last(t) == Digest(hash, rows)
    decreases |rows|
  {
    if rows != [] {
      var init, row := rows[..|rows| - 1], rows[|rows| - 1];
      RecordingChainsAll(hash, init);
      RecordKeepsIntact(hash, RecordedAll(hash, init), row);
      RecordChains(hash, RecordedAll(hash, init), row);
      assert rows == init + [row];
    }
  }

  // Two verified tables with the same last hash hold the same entries since the
  // last row without a hash, or their inputs contain a collision: deleting,
  // inserting, reordering or changing entries does not survive verification against
  // a remembered hash.
  lemma TamperEvidence(hash: Bytes -> Bytes, a: seq<Stored>, b: seq<Stored>) returns (collision: Option<(nat, nat)>)
    requires HashOk(hash) && Intact(hash, a) && Intact(hash, b) && Last(a) == Last(b)
    requires RowsOk(Rows(Chained(a))) && RowsOk(Rows(Chained(b)))
    requires |Chained(a)| == |Chained(b)| || (SmallIds(Rows(Chained(a))) && SmallIds(Rows(Chained(b))))
    ensures collision.None? ==> SameChain(Rows(Chained(a)), Rows(Chained(b)))
    ensures collision.Some? ==> Collide(hash, Rows(Chained(a)), collision.value.0, Rows(Chained(b)), collision.value.1)
  {
    IntactIsDigest(hash, a);
    IntactIsDigest(hash, b);
    collision := ChainIsBinding(hash, Rows(Chained(a)), Rows(Chained(b)));
  }

  // What is left of recorded rows: whoever presents a table that verifies and ends in
  // the hash the recording ended in presents those rows, or inputs that collide.
  lemma RecordIsKept(hash: Bytes -> Bytes, rows: seq<Row>, b: seq<Stored>) returns (collision: Option<(nat, nat)>)
    requires HashOk(hash) && Intact(hash, b) && Last(b) == Last(RecordedAll(hash, rows))
    requires RowsOk(rows) && RowsOk(Rows(Chained(b)))
    requires |rows| == |Chained(b)| || (SmallIds(rows) && SmallIds(Rows(Chained(b))))
    ensures collision.None? ==> SameChain(rows, Rows(Chained(b)))
    ensures collision.Some? ==> Collide(hash, rows, collision.value.0, Rows(Chained(b)), collision.value.1)
  {
    RecordingChainsAll(hash, rows);
    collision := TamperEvidence(hash, RecordedAll(hash, rows), b);
  }
}
