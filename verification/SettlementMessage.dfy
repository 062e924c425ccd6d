/** The enclave-signed settlement preimage: a context prefix and one fixed-width record per settlement. Only the network
  * id has a variable width, and it carries no length prefix.
  */
module SettlementMessage {
  import opened Bytes

  datatype Settlement = Settlement(client: seq<Byte>, assetId: seq<Byte>, cumulativeSpent: nat)

  datatype Batch = Batch(
    networkId: seq<Byte>,
    enclaveKey: seq<Byte>,
    operator: seq<Byte>,
    periodStart: nat,
    settlements: seq<Settlement>)

  /** "hearth-settle-v1" */
  const DOMAIN: seq<Byte> := [104, 101, 97, 114, 116, 104, 45, 115, 101, 116, 116, 108, 101, 45, 118, 49]

  predicate Lowercase(b: Byte) { 97 <= b <= 122 }

  predicate ValidSettlement(s: Settlement) {
    |s.client| == 20 && |s.assetId| == 32 && s.cumulativeSpent < 0x8000_0000_0000_0000
  }

  /** What the types and the validator guarantee: field widths, and 1 to 83 lowercase letters of network id. */
  ghost predicate Valid(b: Batch) {
    && 1 <= |b.networkId| <= 83 && (forall i :: 0 <= i < |b.networkId| ==> Lowercase(b.networkId[i]))
    && |b.enclaveKey| == 32 && |b.operator| == 20 && b.periodStart < 0x8000_0000
    && (forall i :: 0 <= i < |b.settlements| ==> ValidSettlement(b.settlements[i]))
  }

  function Record(s: Settlement): seq<Byte> { s.client + s.assetId + BigEndian(s.cumulativeSpent, 8) }

  function Records(settlements: seq<Settlement>): seq<Byte> {
    if settlements == [] then [] else Records(settlements[..|settlements| - 1]) + Record(settlements[|settlements| - 1])
  }

  /** The fixed-width part between the network id and the records. The count is cut to two bytes. */
  function Header(b: Batch): seq<Byte> {
    b.enclaveKey + b.operator + BigEndian(b.periodStart, 4) + BigEndian(|b.settlements|, 2)
  }

  function Message(b: Batch): seq<Byte> { DOMAIN + b.networkId + Header(b) + Records(b.settlements) }

  // ----- Lengths

  lemma {:induction false} RecordsLength(settlements: seq<Settlement>)
    requires forall i :: 0 <= i < |settlements| ==> ValidSettlement(settlements[i])
    ensures |Records(settlements)| == 60 * |settlements|
  {
    if settlements != [] {
      RecordsLength(settlements[..|settlements| - 1]);
    }
  }

  lemma MessageLength(b: Batch)
    requires Valid(b)
    ensures |Message(b)| == 74 + |b.networkId| + 60 * |b.settlements| && |Header(b)| == 58
  {
    RecordsLength(b.settlements);
  }

  // ----- The layout

  lemma {:induction false} RecordAt(settlements: seq<Settlement>, i: nat)
    requires (forall j :: 0 <= j < |settlements| ==> ValidSettlement(settlements[j])) && i < |settlements|
    ensures |Records(settlements)| == 60 * |settlements|
    ensures Records(settlements)[60 * i..60 * i + 60] == Record(settlements[i])
    decreases |settlements|
  {
    var n := |settlements| - 1;
    RecordsLength(settlements);
    RecordsLength(settlements[..n]);
    if i < n {
      RecordAt(settlements[..n], i);
      assert Records(settlements)[60 * i..60 * i + 60] == Records(settlements[..n])[60 * i..60 * i + 60];
    }
  }

  /** Where each field is: the domain "hearth-settle-v1", the network id, the enclave key, the operator, the period's first
    * height in four bytes and the count in two, most significant first.
    */
  lemma HeaderLayout(b: Batch)
    requires Valid(b)
    ensures var m, k := Message(b), |b.networkId|;
            && |m| == 74 + k + 60 * |b.settlements|
            && (forall i :: 0 <= i < 16 ==> m[i] == "hearth-settle-v1"[i] as int)
            && m[16..16 + k] == b.networkId && m[16 + k..48 + k] == b.enclaveKey && m[48 + k..68 + k] == b.operator
            && Value(m[68 + k..72 + k]) == b.periodStart && Value(m[72 + k..74 + k]) == |b.settlements| % 0x1_0000
  {
    hide BigEndian, Records, Value, Capacity, Header, Message;
    var m, k, head := Message(b), |b.networkId|, Header(b);
    HeadParts(b);
    MessageParts(b);
    Inside(m, 16 + k, head, 0, 32);
    Inside(m, 16 + k, head, 32, 52);
    Inside(m, 16 + k, head, 52, 56);
    Inside(m, 16 + k, head, 56, 58);
    assert head[0..32] == head[..32] && head[56..58] == head[56..];
  }

  lemma Inside(all: seq<Byte>, at: nat, part: seq<Byte>, i: nat, j: nat)
    requires at + |part| <= |all| && all[at..at + |part|] == part && i <= j <= |part|
    ensures all[at + i..at + j] == part[i..j]
  {
    forall k | 0 <= k < j - i ensures all[at + i..at + j][k] == part[i..j][k] {
      assert all[at..at + |part|][i + k] == all[at + i + k];
    }
  }

  lemma MessageParts(b: Batch)
    requires Valid(b)
    ensures var m, k := Message(b), |b.networkId|;
            && |m| == 74 + k + 60 * |b.settlements| && m[16..16 + k] == b.networkId && m[16 + k..74 + k] == Header(b)
            && forall i :: 0 <= i < 16 ==> m[i] == "hearth-settle-v1"[i] as int
  {
    MessageLength(b);
    hide BigEndian, Records, Header;
    assert Message(b)[..16] == DOMAIN;
  }

  lemma HeadParts(b: Batch)
    requires Valid(b)
    ensures var head := Header(b);
            && |head| == 58 && head[..32] == b.enclaveKey && head[32..52] == b.operator
            && Value(head[52..56]) == b.periodStart && Value(head[56..]) == |b.settlements| % 0x1_0000
  {
    Capacities();
    ValueOfBigEndian(b.periodStart, 4);
    ValueOfBigEndian(|b.settlements|, 2);
    FourParts(b.enclaveKey, b.operator, BigEndian(b.periodStart, 4), BigEndian(|b.settlements|, 2));
    hide BigEndian, Value, Capacity;
  }

  lemma FourParts(a: seq<Byte>, b: seq<Byte>, c: seq<Byte>, d: seq<Byte>)
    ensures var all := a + b + c + d;
            && all[..|a|] == a && all[|a|..|a| + |b|] == b && all[|a| + |b|..|a| + |b| + |c|] == c && all[|a| + |b| + |c|..] == d
  {
  }

  /** And for each settlement its client, its asset and its counter in eight bytes. */
  lemma RecordLayout(b: Batch, i: nat)
    requires Valid(b) && i < |b.settlements|
    ensures var m, at, s := Message(b), 74 + |b.networkId| + 60 * i, b.settlements[i];
            && at + 60 <= |m| && m[at..at + 20] == s.client && m[at + 20..at + 52] == s.assetId
            && Value(m[at + 52..at + 60]) == s.cumulativeSpent
  {
    hide BigEndian, Records, Value, Header, Capacity, Message, Valid, Record;
    var m, at, s := Message(b), 74 + |b.networkId| + 60 * i, b.settlements[i];
    RecordsTail(b);
    RecordAt(b.settlements, i);
    RecordParts(s);
    var r := Record(s);
    assert m[at..at + 60] == Records(b.settlements)[60 * i..60 * i + 60] == r;
    Inside(m, at, r, 0, 20);
    Inside(m, at, r, 20, 52);
    Inside(m, at, r, 52, 60);
    assert r[0..20] == r[..20] && r[52..60] == r[52..];
  }

  lemma RecordsTail(b: Batch)
    requires Valid(b)
    ensures forall i :: 0 <= i < |b.settlements| ==> ValidSettlement(b.settlements[i])
    ensures |Message(b)| == 74 + |b.networkId| + 60 * |b.settlements| && Message(b)[74 + |b.networkId|..] == Records(b.settlements)
  {
    MessageLength(b);
    hide BigEndian, Records;
    assert Message(b)[|DOMAIN + b.networkId + Header(b)|..] == Records(b.settlements);
  }

  lemma RecordParts(s: Settlement)
    requires ValidSettlement(s)
    ensures var r := Record(s);
            |r| == 60 && r[..20] == s.client && r[20..52] == s.assetId && Value(r[52..]) == s.cumulativeSpent
  {
    Capacities();
    ValueOfBigEndian(s.cumulativeSpent, 8);
    hide BigEndian, Value, Capacity;
  }

  // ----- Same width of network id: the fields line up

  lemma {:induction false} RecordsInjective(one: seq<Settlement>, two: seq<Settlement>)
    requires forall i :: 0 <= i < |one| ==> ValidSettlement(one[i])
    requires forall i :: 0 <= i < |two| ==> ValidSettlement(two[i])
    requires Records(one) == Records(two) && |one| == |two|
    ensures one == two
  {
    if one != [] {
      var n := |one| - 1;
      RecordsLength(one[..n]);
      RecordsLength(two[..n]);
      SplitsAgree(Records(one[..n]), Record(one[n]), Records(two[..n]), Record(two[n]));
      RecordsInjective(one[..n], two[..n]);
      RecordInjective(one[n], two[n]);
      assert one == one[..n] + [one[n]] && two == two[..n] + [two[n]];
    }
  }

  /** Two concatenations that agree, split at the same place, agree in both parts. */
  lemma SplitsAgree(a: seq<Byte>, b: seq<Byte>, c: seq<Byte>, d: seq<Byte>)
    requires a + b == c + d && |a| == |c|
    ensures a == c && b == d
  {
    assert a == (a + b)[..|a|] && c == (c + d)[..|c|];
    assert b == (a + b)[|a|..] && d == (c + d)[|c|..];
  }

  lemma RecordInjective(one: Settlement, two: Settlement)
    requires ValidSettlement(one) && ValidSettlement(two) && Record(one) == Record(two)
    ensures one == two
  {
    SplitsAgree(one.client + one.assetId, BigEndian(one.cumulativeSpent, 8),
                two.client + two.assetId, BigEndian(two.cumulativeSpent, 8));
    SplitsAgree(one.client, one.assetId, two.client, two.assetId);
    NumberInjective(one.cumulativeSpent, two.cumulativeSpent, 8);
  }

  lemma Capacities()
    ensures Capacity(2) == 0x1_0000 && Capacity(4) == 0x1_0000_0000 && Capacity(8) == 0x1_0000_0000_0000_0000
  {
    assert Capacity(1) == 256 && Capacity(2) == 256 * Capacity(1) && Capacity(3) == 256 * Capacity(2);
    assert Capacity(4) == 256 * Capacity(3) && Capacity(5) == 256 * Capacity(4) && Capacity(6) == 256 * Capacity(5);
    assert Capacity(7) == 256 * Capacity(6) && Capacity(8) == 256 * Capacity(7);
  }

  lemma NumberInjective(m: nat, n: nat, width: nat)
    requires m < Capacity(width) && n < Capacity(width) && BigEndian(m, width) == BigEndian(n, width)
    ensures m == n
  {
    ValueOfBigEndian(m, width);
    ValueOfBigEndian(n, width);
  }

  lemma AlignedInjective(one: Batch, two: Batch)
    requires Valid(one) && Valid(two) && Message(one) == Message(two) && |one.networkId| == |two.networkId|
    ensures one == two
  {
    MessageLength(one);
    MessageLength(two);
    SplitsAgree(DOMAIN + one.networkId + Header(one), Records(one.settlements),
                DOMAIN + two.networkId + Header(two), Records(two.settlements));
    SplitsAgree(DOMAIN + one.networkId, Header(one), DOMAIN + two.networkId, Header(two));
    SplitsAgree(DOMAIN, one.networkId, DOMAIN, two.networkId);
    HeaderInjective(one, two);
    RecordsInjective(one.settlements, two.settlements);
  }

  lemma HeaderInjective(one: Batch, two: Batch)
    requires Valid(one) && Valid(two) && Header(one) == Header(two)
    ensures one.enclaveKey == two.enclaveKey && one.operator == two.operator && one.periodStart == two.periodStart
  {
    var period1, period2 := BigEndian(one.periodStart, 4), BigEndian(two.periodStart, 4);
    SplitsAgree(one.enclaveKey + one.operator + period1, BigEndian(|one.settlements|, 2),
                two.enclaveKey + two.operator + period2, BigEndian(|two.settlements|, 2));
    SplitsAgree(one.enclaveKey + one.operator, period1, two.enclaveKey + two.operator, period2);
    SplitsAgree(one.enclaveKey, one.operator, two.enclaveKey, two.operator);
    Capacities();
    NumberInjective(one.periodStart, two.periodStart, 4);
  }

  // ----- Different widths: the shorter one's period start and count lie inside the longer network id

  /** The bytes of the period start and of the count sit right before the records. */
  lemma HeaderTail(b: Batch, i: nat)
    requires Valid(b) && i < 6
    ensures |Header(b)| == 58 && |Message(b)| >= 74 + |b.networkId|
    ensures Message(b)[16 + |b.networkId| + 52 + i] ==
            (BigEndian(b.periodStart, 4) + BigEndian(|b.settlements|, 2))[i]
  {
    MessageLength(b);
    var tail := BigEndian(b.periodStart, 4) + BigEndian(|b.settlements|, 2);
    assert Header(b) == b.enclaveKey + b.operator + tail;
    assert Header(b)[52 + i] == tail[i];
    assert |DOMAIN + b.networkId| == 16 + |b.networkId|;
    assert (DOMAIN + b.networkId + Header(b))[16 + |b.networkId| + 52 + i] == Header(b)[52 + i];
  }

  lemma NetworkIdBytes(b: Batch, j: nat)
    requires Valid(b) && j < |b.networkId|
    ensures |Message(b)| > 16 + j && Lowercase(Message(b)[16 + j])
  {
    MessageLength(b);
    assert (DOMAIN + b.networkId)[16 + j] == b.networkId[j];
    assert (DOMAIN + b.networkId + Header(b))[16 + j] == b.networkId[j];
  }

  /** Widths that differ differ by exactly one record. */
  lemma WidthsDiffer(k1: nat, k2: nat, n1: nat, n2: nat)
    requires 1 <= k2 < k1 <= 83 && k1 + 60 * n1 == k2 + 60 * n2
    ensures k1 == k2 + 60 && n2 == n1 + 1
  {
  }

  /** The overlap: every byte of the shorter batch's period start and count would be a lowercase letter. */
  lemma Overlap(long: Batch, short: Batch, i: nat)
    requires Valid(long) && Valid(short) && Message(long) == Message(short)
    requires |short.networkId| < |long.networkId| && i < 6
    ensures Lowercase((BigEndian(short.periodStart, 4) + BigEndian(|short.settlements|, 2))[i])
  {
    MessageLength(long);
    MessageLength(short);
    WidthsDiffer(|long.networkId|, |short.networkId|, |long.settlements|, |short.settlements|);
    HeaderTail(short, i);
    NetworkIdBytes(long, |short.networkId| + 52 + i);
  }

  /** A number whose four bytes are all lowercase letters is at least 0x61616161; two bytes, at least 0x6161. */
  lemma LettersAreLarge(n: nat)
    ensures (forall i :: 0 <= i < 4 ==> Lowercase(BigEndian(n, 4)[i])) ==> n >= 0x6161_6161
    ensures (forall i :: 0 <= i < 2 ==> Lowercase(BigEndian(n, 2)[i])) ==> n >= 0x6161
  {
    var b1, b2, b3 := BigEndian(n / 256, 3), BigEndian(n / 256 / 256, 2), BigEndian(n / 256 / 256 / 256, 1);
    assert BigEndian(n, 4) == b1 + [n % 256] && b1 == b2 + [n / 256 % 256] && b2 == b3 + [n / 256 / 256 % 256];
    assert b3 == BigEndian(n / 256 / 256 / 256 / 256, 0) + [n / 256 / 256 / 256 % 256];
    assert BigEndian(n, 4)[3] == n % 256 && BigEndian(n, 4)[2] == n / 256 % 256;
    assert BigEndian(n, 4)[1] == n / 256 / 256 % 256 && BigEndian(n, 4)[0] == n / 256 / 256 / 256 % 256;
    assert BigEndian(n, 2) == BigEndian(n / 256, 1) + [n % 256];
    assert BigEndian(n / 256, 1) == BigEndian(n / 256 / 256, 0) + [n / 256 % 256];
    assert BigEndian(n, 2)[1] == n % 256 && BigEndian(n, 2)[0] == n / 256 % 256;
  }

  lemma NoOverlap(long: Batch, short: Batch)
    requires Valid(long) && Valid(short) && |short.networkId| < |long.networkId|
    requires short.periodStart < 0x6161_6161 || |short.settlements| < 0x6161
    ensures Message(long) != Message(short)
  {
    if Message(long) == Message(short) {
      var period, count := BigEndian(short.periodStart, 4), BigEndian(|short.settlements|, 2);
      forall i: nat | i < 4 ensures Lowercase(period[i]) {
        Overlap(long, short, i);
        assert (period + count)[i] == period[i];
      }
      forall i: nat | i < 2 ensures Lowercase(count[i]) {
        Overlap(long, short, i + 4);
        assert (period + count)[i + 4] == count[i];
      }
      LettersAreLarge(short.periodStart);
      LettersAreLarge(|short.settlements|);
      assert false;
    }
  }

  /** Either bound is enough. */
  predicate Bounded(b: Batch) { b.periodStart < 0x6161_6161 || |b.settlements| < 0x6161 }

  /** The preimage is injective: over all network ids and all batch sizes while period starts stay below 0x61616161,
    * and over all period starts while batches stay below 0x6161 settlements, far above the validator's limit of 100.
    */
  lemma MessageInjective(one: Batch, two: Batch)
    requires Valid(one) && Valid(two) && Bounded(one) && Bounded(two) && Message(one) == Message(two)
    ensures one == two
  {
    if |one.networkId| < |two.networkId| {
      NoOverlap(two, one);
    } else if |two.networkId| < |one.networkId| {
      NoOverlap(one, two);
    } else {
      AlignedInjective(one, two);
    }
  }

  /** So it is on every batch the validator lets through, at every height. */
  lemma AcceptedInjective(one: Batch, two: Batch)
    requires Valid(one) && |one.settlements| <= 100 && Valid(two) && |two.settlements| <= 100
    ensures Message(one) == Message(two) ==> one == two
  {
    hide Message, Valid;
    if Message(one) == Message(two) {
      MessageInjective(one, two);
    }
  }

  // ----- Past both bounds it is not injective

  function Letters(n: nat): (letters: seq<Byte>)
    ensures |letters| == n && forall i :: 0 <= i < n ==> letters[i] == 97
  {
    seq(n, i => 97)
  }

  const LETTERS_RECORD := Settlement(Letters(20), Letters(32), 0x6161_6161_6161_6160)

  function Repeated(n: nat): (settlements: seq<Settlement>)
    ensures |settlements| == n && forall i :: 0 <= i < n ==> settlements[i] == LETTERS_RECORD
  {
    seq(n, i => LETTERS_RECORD)
  }

  const SHORT := Batch(Letters(1), Letters(32), Letters(20), 0x6161_6161, Repeated(0x6161))
  const LONG := Batch(Letters(61), Letters(32), Letters(20), 0x6161_6161, Repeated(0x6160))

  lemma {:induction false} RepeatedRecords(n: nat)
    ensures Records(Repeated(n + 1)) == Record(LETTERS_RECORD) + Records(Repeated(n))
  {
    assert Repeated(n + 1)[..n] == Repeated(n);
    if n > 0 {
      assert Repeated(n)[..n - 1] == Repeated(n - 1);
      RepeatedRecords(n - 1);
    } else {
      assert Repeated(1) == [LETTERS_RECORD] && Repeated(0) == [];
      assert Records(Repeated(0)) == [];
      assert [] + Record(LETTERS_RECORD) == Record(LETTERS_RECORD) + [];
    }
  }

  lemma JoinLetters(m: nat, n: nat)
    ensures Letters(m) + Letters(n) == Letters(m + n)
  {
  }

  lemma LetterNumbers()
    ensures BigEndian(0x6161_6161, 4) == Letters(4) && BigEndian(0x6161, 2) == Letters(2)
    ensures BigEndian(0x6160, 2) == [97, 96]
    ensures BigEndian(0x6161_6161_6161_6160, 8) == Letters(6) + [97, 96]
  {
    assert BigEndian(0x61, 1) == BigEndian(0, 0) + [97] == [97];
    assert BigEndian(0x6161, 2) == BigEndian(0x61, 1) + [97] == [97, 97];
    assert BigEndian(0x6160, 2) == BigEndian(0x61, 1) + [96];
    assert BigEndian(0x61_6161, 3) == BigEndian(0x6161, 2) + [97];
    assert BigEndian(0x6161_6161, 4) == BigEndian(0x61_6161, 3) + [97];
    assert BigEndian(0x61_6161_6161, 5) == BigEndian(0x6161_6161, 4) + [97];
    assert BigEndian(0x6161_6161_6161, 6) == BigEndian(0x61_6161_6161, 5) + [97];
    assert BigEndian(0x61_6161_6161_6161, 7) == BigEndian(0x6161_6161_6161, 6) + [97];
    assert BigEndian(0x6161_6161_6161_6160, 8) == BigEndian(0x61_6161_6161_6161, 7) + [96];
  }

  lemma LettersRecord()
    ensures Record(LETTERS_RECORD) == Letters(58) + [97, 96]
  {
    LetterNumbers();
    JoinLetters(20, 32);
    JoinLetters(52, 6);
    assert Letters(52) + (Letters(6) + [97, 96]) == Letters(52) + Letters(6) + [97, 96];
  }

  lemma ShortMessage()
    ensures Message(SHORT) == DOMAIN + Letters(117) + [97, 96] + Records(Repeated(0x6160))
  {
    var rest := Records(Repeated(0x6160));
    RepeatedRecords(0x6160);
    LettersRecord();
    LetterNumbers();
    hide Records, Record, BigEndian, Repeated;
    JoinLetters(32, 20);
    JoinLetters(52, 4);
    JoinLetters(56, 2);
    assert Header(SHORT) == Letters(58);
    JoinLetters(1, 58);
    JoinLetters(59, 58);
    Regroup(DOMAIN, Letters(1), Letters(58), Letters(58), [97, 96], rest);
  }

  lemma Regroup(a: seq<Byte>, b: seq<Byte>, c: seq<Byte>, d: seq<Byte>, e: seq<Byte>, f: seq<Byte>)
    ensures a + b + c + (d + e + f) == a + (b + c + d) + e + f
  {
  }

  lemma LongMessage()
    ensures Message(LONG) == DOMAIN + Letters(117) + [97, 96] + Records(Repeated(0x6160))
  {
    LetterNumbers();
    hide Records, BigEndian, Repeated;
    JoinLetters(32, 20);
    JoinLetters(52, 4);
    assert Header(LONG) == Letters(56) + [97, 96];
    JoinLetters(61, 56);
    assert DOMAIN + Letters(61) + (Letters(56) + [97, 96]) == DOMAIN + (Letters(61) + Letters(56)) + [97, 96];
  }

  /** Past both bounds two different batches can share a preimage: the bounds are where injectivity ends. */
  lemma Collision()
    ensures Valid(SHORT) && Valid(LONG) && SHORT != LONG && Message(SHORT) == Message(LONG)
    ensures !Bounded(SHORT)
  {
    ShortMessage();
    LongMessage();
    hide Message;
    assert |SHORT.networkId| == 1 && |LONG.networkId| == 61;
  }
}
