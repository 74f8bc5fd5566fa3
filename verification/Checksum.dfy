/** The internet checksum of nm_ping (nm_ping.c), computed in pieces around the checksum field.
    RFC 1071 sections 1 and 2 define the sum, RFC 791 section 3.1 and RFC 768 the two headers. */
module Checksum {
  import opened Arith
  import opened Types

  const ONES: nat := 0xFFFF

  // ---------------------------------------------------------------------------------
  // The sum as RFC 1071 defines it
  // ---------------------------------------------------------------------------------

  /** The integer sum of the big-endian 16-bit words of a buffer, an odd last byte padded with zero. */
  function Words(buf: seq<Byte>): nat {
    if |buf| == 0 then 0
    else if |buf| == 1 then buf[0] as int * 0x100
    else buf[0] as int * 0x100 + buf[1] as int + Words(buf[2..])
  }

  /** The one's-complement 16-bit sum that a plain integer sum stands for: zero only for zero. */
  function OnesSum(sum: nat): (r: nat)
    ensures r <= ONES && r % ONES == sum % ONES && (r == 0 <==> sum == 0)
  {
    if sum == 0 then 0 else if sum % ONES == 0 then ONES else sum % ONES
  }

  /** What a receiver checks: the sum over everything, checksum included, is all ones. */
  predicate Verifies(message: seq<Byte>) {
    OnesSum(Words(message)) == ONES
  }

  function HighByte(word: nat): Byte
    requires word <= ONES
  {
    (word / 0x100) as Byte
  }

  function LowByte(word: nat): Byte
    requires word <= ONES
  {
    (word % 0x100) as Byte
  }

  function Stored(word: nat): seq<Byte>
    requires word <= ONES
  {
    [HighByte(word), LowByte(word)]
  }

  /** Pieces of even length can be summed apart. */
  lemma {:induction false} WordsOfPieces(a: seq<Byte>, b: seq<Byte>)
    requires |a| % 2 == 0
    ensures Words(a + b) == Words(a) + Words(b)
  {
    if a == [] {
      assert a + b == b;
    } else {
      WordsOfPieces(a[2..], b);
      assert (a + b)[2..] == a[2..] + b;
    }
  }

  /** The same sum byte by byte from the other end: bytes at even places weigh 256, those at odd places 1. */
  function Weighted(buf: seq<Byte>): nat {
    if buf == [] then 0
    else Weighted(buf[..|buf| - 1]) + buf[|buf| - 1] as int * if |buf| % 2 == 1 then 0x100 else 1
  }

  lemma {:induction false} WordsAreWeighted(buf: seq<Byte>)
    ensures Words(buf) == Weighted(buf)
    decreases |buf|
  {
    if buf != [] {
      var front, last := buf[..|buf| - 1], buf[|buf| - 1];
      WordsAreWeighted(front);
      if |buf| % 2 == 1 {
        WordsOfPieces(front, [last]);
        assert buf == front + [last];
      } else {
        var pairs, first := front[..|front| - 1], front[|front| - 1];
        WordsOfPieces(pairs, [first, last]);
        WordsOfPieces(pairs, [first]);
        assert buf == pairs + [first, last] && front == pairs + [first];
        assert Words([first, last][2..]) == 0;
      }
    }
  }

  lemma WordsOfStored(word: nat)
    requires word <= ONES
    ensures Words(Stored(word)) == word
  {
    assert Words(Stored(word)[2..]) == 0;
  }

  /** Enough room in 64 bits: no sum of a buffer below 2^48 bytes wraps around. */
  lemma {:induction false} WordsBound(buf: seq<Byte>)
    ensures Words(buf) <= (|buf| + 1) / 2 * ONES
  {
    if |buf| > 1 {
      WordsBound(buf[2..]);
    }
  }

  /** A checksum field at an even place, in a message cut into even pieces around it. */
  lemma WordsAround(before: seq<Byte>, word: nat, after: seq<Byte>)
    requires |before| % 2 == 0 && word <= ONES
    ensures Words(before + Stored(word) + after) == Words(before) + word + Words(after)
  {
    WordsOfStored(word);
    WordsOfPieces(before, Stored(word));
    WordsOfPieces(before + Stored(word), after);
  }

  // ---------------------------------------------------------------------------------
  // xsum and finsum
  // ---------------------------------------------------------------------------------

  /** xsum: the words in order, then an odd last byte as the high half of a word. */
  method Xsum(buf: seq<Byte>) returns (sum: nat)
    ensures sum == Words(buf)
    ensures |buf| < 0x1_0000_0000_0000 ==> sum < 0x1_0000_0000_0000_0000
  {
    sum := 0;
    for i := 0 to |buf| / 2
      invariant sum == Words(buf[..2 * i])
    {
      var word := buf[2 * i..2 * i + 2];
      WordsOfPieces(buf[..2 * i], word);
      assert buf[..2 * (i + 1)] == buf[..2 * i] + word;
      assert Words(word[2..]) == 0;
      sum := sum + word[0] as int * 0x100 + word[1] as int;
    }
    if |buf| % 2 == 1 {
      WordsOfPieces(buf[..|buf| - 1], [buf[|buf| - 1]]);
      assert buf == buf[..|buf| - 1] + [buf[|buf| - 1]];
      sum := sum + buf[|buf| - 1] as int * 0x100;
    } else {
      assert buf[..2 * (|buf| / 2)] == buf;
    }
    WordsBound(buf);
  }

  lemma FoldKeepsSum(sum: nat)
    requires sum > ONES
    ensures OnesSum(sum % 0x1_0000 + sum / 0x1_0000) == OnesSum(sum)
    ensures 0 < sum % 0x1_0000 + sum / 0x1_0000 < sum
  {
    var folded := sum % 0x1_0000 + sum / 0x1_0000;
    assert sum == folded + sum / 0x1_0000 * ONES;
    ModAddMultiple(folded, sum / 0x1_0000, ONES);
  }

  /** finsum: folding ends, whatever the sum, at its one's-complement sum; the complement is returned. */
  method Finsum(total: nat) returns (r: nat)
    ensures r <= ONES && r == ONES - OnesSum(total)
  {
    var sum: nat := total;
    while sum > ONES
      invariant OnesSum(sum) == OnesSum(total)
      decreases sum
    {
      FoldKeepsSum(sum);
      sum := sum % 0x1_0000 + sum / 0x1_0000;
    }
    assert OnesSum(sum) == sum by {
      if 0 < sum < ONES {
        DivModUnique(0, sum, ONES);
      }
    }
    r := ONES - sum;
  }

  /** Among all 16-bit words, exactly the returned one completes a sum to all ones; when that is zero, so
      does the other writing of zero. */
  lemma CompletesExactly(rest: nat, word: nat)
    requires word <= ONES
    ensures var sum := ONES - OnesSum(rest);
            OnesSum(rest + word) == ONES <==> word == sum || (sum == 0 && word == ONES)
  {
    var f := OnesSum(rest);
    var sum := ONES - f;
    ModAdd(rest, word, ONES);
    ModAdd(f, word, ONES);
    assert (rest + word) % ONES == (f + word) % ONES;
    assert OnesSum(rest + word) == ONES <==> rest + word > 0 && (f + word) % ONES == 0;
  }

  /** The example of RFC 1071 section 3: the words 0001, f203, f4f5 and f6f7 add up to ddf2. */
  lemma Rfc1071Example()
    ensures OnesSum(Words([0x00, 0x01, 0xF2, 0x03, 0xF4, 0xF5, 0xF6, 0xF7])) == 0xDDF2
  {
    var a: seq<Byte>, b: seq<Byte> := [0x00, 0x01, 0xF2, 0x03], [0xF4, 0xF5, 0xF6, 0xF7];
    WordsOfPieces(a, b);
    assert Words(a) == 0xF204 && Words(b) == 0x1EBEC;
    assert a + b == [0x00, 0x01, 0xF2, 0x03, 0xF4, 0xF5, 0xF6, 0xF7];
  }

  // ---------------------------------------------------------------------------------
  // The IPv4 header
  // ---------------------------------------------------------------------------------

  /** Length in bytes that the header states in its low nibble. */
  function HeaderLength(ip: seq<Byte>): nat
    requires |ip| > 0
  {
    ip[0] as int % 16 * 4
  }

  /** The internet header length of RFC 791 section 3.1 counts 32-bit words in the second half of the first byte. */
  lemma HeaderLengthIsRfc791(ip: seq<Byte>, version: nat, words: nat)
    requires |ip| > 0 && words < 16 && ip[0] as int == version * 16 + words
    ensures HeaderLength(ip) == words * 4
  {
    DivModUnique(version, words, 16);
  }

  /** The header reaches at least to the source address and lies inside the buffer. */
  predicate IsHeader(ip: seq<Byte>) {
    |ip| > 0 && 12 <= HeaderLength(ip) <= |ip|
  }

  /** The header with its checksum field set. */
  function WithIpSum(ip: seq<Byte>, word: nat): seq<Byte>
    requires IsHeader(ip) && word <= ONES
  {
    ip[..10] + Stored(word) + ip[12..HeaderLength(ip)]
  }

  /** ipsum: what it returns makes the header verify, whatever the field held before. */
  method Ipsum(ip: seq<Byte>) returns (r: nat)
    requires IsHeader(ip)
    ensures r <= ONES && r == ONES - OnesSum(Words(ip[..10]) + Words(ip[12..HeaderLength(ip)]))
    ensures Verifies(WithIpSum(ip, r))
  {
    var front := Xsum(ip[..10]);
    var back := Xsum(ip[12..HeaderLength(ip)]);
    r := Finsum(front + back);
    IpVerifiesExactly(ip, r);
    CompletesExactly(front + back, r);
  }

  /** A header verifies for exactly one value of its checksum field, the one that ipsum returns; when that
      is zero, also for all ones. */
  lemma IpVerifiesExactly(ip: seq<Byte>, word: nat)
    requires IsHeader(ip) && word <= ONES
    ensures var rest := Words(ip[..10]) + Words(ip[12..HeaderLength(ip)]);
            var sum := ONES - OnesSum(rest);
            && (Verifies(WithIpSum(ip, word)) <==> OnesSum(rest + word) == ONES)
            && (Verifies(WithIpSum(ip, word)) <==> word == sum || (sum == 0 && word == ONES))
  {
    var rest := Words(ip[..10]) + Words(ip[12..HeaderLength(ip)]);
    WordsAround(ip[..10], word, ip[12..HeaderLength(ip)]);
    CompletesExactly(rest, word);
  }

  // ---------------------------------------------------------------------------------
  // UDP
  // ---------------------------------------------------------------------------------

  /** uh_ulen in host order. */
  function DatagramLength(udp: seq<Byte>): nat
    requires |udp| == 8
  {
    udp[4] as int * 0x100 + udp[5] as int
  }

  /** An IPv4 header through its addresses, a UDP header and the payload its length asks for. */
  predicate IsDatagram(ip: seq<Byte>, udp: seq<Byte>, data: seq<Byte>) {
    |ip| >= 20 && |udp| == 8 && 8 <= DatagramLength(udp) <= 8 + |data|
  }

  function PseudoHeader(ip: seq<Byte>, udp: seq<Byte>): seq<Byte>
    requires |ip| >= 20 && |udp| == 8
  {
    ip[12..16] + ip[16..20] + [0, ip[9]] + udp[4..6]
  }

  /** The pseudo-header of RFC 768: source and destination address, zero, protocol, and the length of the datagram; and
      that length is the big-endian word in the header. */
  lemma PseudoHeaderIsRfc768(ip: seq<Byte>, udp: seq<Byte>)
    requires |ip| >= 20 && |udp| == 8
    ensures var pseudo := PseudoHeader(ip, udp);
            && |pseudo| == 12 && (forall k :: 0 <= k < 8 ==> pseudo[k] == ip[12 + k])
            && pseudo[8] == 0 && pseudo[9] == ip[9] && pseudo[10] == udp[4] && pseudo[11] == udp[5]
            && Words(pseudo[10..]) == DatagramLength(udp) < 0x1_0000
            && Stored(DatagramLength(udp)) == [udp[4], udp[5]]
  {
    var tail := PseudoHeader(ip, udp)[10..];
    assert tail == [udp[4], udp[5]] && Words(tail[2..]) == 0;
    DivModUnique(udp[4] as int, udp[5] as int, 0x100);
  }

  function Payload(udp: seq<Byte>, data: seq<Byte>): seq<Byte>
    requires |udp| == 8 && 8 <= DatagramLength(udp) <= 8 + |data|
  {
    data[..DatagramLength(udp) - 8]
  }

  /** Everything RFC 768 sums, with the checksum field set. */
  function Summed(ip: seq<Byte>, udp: seq<Byte>, data: seq<Byte>, word: nat): seq<Byte>
    requires IsDatagram(ip, udp, data) && word <= ONES
  {
    PseudoHeader(ip, udp) + udp[..6] + Stored(word) + Payload(udp, data)
  }

  /** The integer sum of everything but the checksum. */
  function UdpRest(ip: seq<Byte>, udp: seq<Byte>, data: seq<Byte>): nat
    requires IsDatagram(ip, udp, data)
  {
    Words(PseudoHeader(ip, udp)) + Words(udp[..6]) + Words(Payload(udp, data))
  }

  lemma SummedWords(ip: seq<Byte>, udp: seq<Byte>, data: seq<Byte>, word: nat)
    requires IsDatagram(ip, udp, data) && word <= ONES
    ensures Words(Summed(ip, udp, data, word)) == UdpRest(ip, udp, data) + word
  {
    WordsOfPieces(PseudoHeader(ip, udp), udp[..6]);
    WordsAround(PseudoHeader(ip, udp) + udp[..6], word, Payload(udp, data));
  }

  /** udpsum: the pseudo-header is filled from both headers and the three pieces are summed apart; the
      result makes the whole datagram verify, odd payload lengths included. */
  method Udpsum(ip: seq<Byte>, udp: seq<Byte>, data: seq<Byte>) returns (r: nat)
    requires IsDatagram(ip, udp, data)
    ensures r <= ONES && r == ONES - OnesSum(UdpRest(ip, udp, data))
    ensures Verifies(Summed(ip, udp, data, r))
  {
    var ips := ip[12..16] + ip[16..20] + [0, ip[9]] + udp[4..6];
    var front := Xsum(ips);
    var header := Xsum(udp[..6]);
    var payload := Xsum(data[..udp[4] as int * 0x100 + udp[5] as int - 8]);
    r := Finsum(front + header + payload);
    SummedWords(ip, udp, data, r);
    CompletesExactly(UdpRest(ip, udp, data), r);
  }

  lemma LengthIsSummed(ip: seq<Byte>, udp: seq<Byte>, data: seq<Byte>)
    requires IsDatagram(ip, udp, data)
    ensures UdpRest(ip, udp, data) > 0
  {
    WordsOfPieces(udp[..4], udp[4..6]);
    assert udp[..6] == udp[..4] + udp[4..6];
    assert Words(udp[4..6][2..]) == 0;
    assert Words(udp[4..6]) == DatagramLength(udp);
  }

  /** RFC 768 reserves a zero field for "no checksum". The result is zero exactly when the words of the
      datagram add up to a multiple of 65535, and udpsum has no branch for that case. */
  lemma ZeroExactlyWhen(ip: seq<Byte>, udp: seq<Byte>, data: seq<Byte>)
    requires IsDatagram(ip, udp, data)
    ensures ONES - OnesSum(UdpRest(ip, udp, data)) == 0 <==> UdpRest(ip, udp, data) % ONES == 0
  {
    LengthIsSummed(ip, udp, data);
  }

  /** A datagram that is sent with a zero field: two payload bytes complete the other words to 65535. */
  lemma ZeroFieldIsSent()
    ensures exists ip, udp, data :: IsDatagram(ip, udp, data) && ONES - OnesSum(UdpRest(ip, udp, data)) == 0
  {
    var ip: seq<Byte> := [0x45, 0, 0, 30, 0, 0, 0, 0, 64, 17, 0, 0, 0, 0, 0, 0, 0, 0, 0, 0];
    var udp: seq<Byte> := [0, 0, 0, 0, 0, 10, 0, 0];
    var data: seq<Byte> := [0xFF, 0xDA];
    assert PseudoHeader(ip, udp) == [0, 0, 0, 0, 0, 0, 0, 0] + [0, 17, 0, 10];
    WordsOfPieces([0, 0, 0, 0, 0, 0, 0, 0], [0, 17, 0, 10]);
    assert Words([0, 0, 0, 0, 0, 0, 0, 0]) == 0;
    assert Words([0, 17, 0, 10]) == 27;
    assert udp[..6] == [0, 0, 0, 0, 0, 10];
    assert Words(udp[..6]) == 10;
    assert Payload(udp, data) == [0xFF, 0xDA];
    assert Words(Payload(udp, data)) == 0xFFDA;
    assert UdpRest(ip, udp, data) == ONES;
  }
}
