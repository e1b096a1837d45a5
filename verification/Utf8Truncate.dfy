/**
 `truncate_text_to_bytes`: cutting a text to a byte budget without splitting a
 character. Strings are UTF-8 encoded as in section 3 of RFC 3629.
 */
module Utf8Truncate {
  import opened Common

  function EncodeChar(c: char): (r: seq<Byte>)
    ensures 1 <= |r| <= 4
  {
    var n := c as int;
    if n < 0x80 then [n as Byte]
    else if n < 0x800 then [(0xC0 + n / 0x40) as Byte, Continuation(n)]
    else if n < 0x10000 then [(0xE0 + n / 0x1000) as Byte, Continuation(n / 0x40), Continuation(n)]
    else [(0xF0 + n / 0x40000) as Byte, Continuation(n / 0x1000), Continuation(n / 0x40), Continuation(n)]
  }

  function Continuation(n: nat): Byte {
    (0x80 + n % 0x40) as Byte
  }

  predicate IsContinuation(b: Byte) {
    0x80 <= b < 0xC0
  }

  function Encoded(s: string): seq<Byte> {
    if s == "" then [] else EncodeChar(s[0]) + Encoded(s[1..])
  }

  /** `str::is_char_boundary`, read off the bytes. */
  predicate IsCharBoundary(b: seq<Byte>, i: nat) {
    i == 0 || i == |b| || (i < |b| && !IsContinuation(b[i]))
  }

  const MARKER_RESERVE: nat := 64

  function Decimal(n: nat): (r: string)
    ensures r != ""
  {
    if n < 10 then [Digit(n)] else Decimal(n / 10) + [Digit(n % 10)]
  }

  function Digit(d: nat): char
    requires d < 10
  {
    '0' + d as char
  }

  function Pow10(k: nat): nat {
    if k == 0 then 1 else 10 * Pow10(k - 1)
  }

  const MARKER_HEAD := "\n[... truncated "
  const MARKER_TAIL := " bytes to fit the compaction window ...]"

  function Marker(dropped: nat): string {
    MARKER_HEAD + Decimal(dropped) + MARKER_TAIL
  }

  /** How many characters fit in `keep` bytes. */
  function KeptChars(s: string, keep: nat): (k: nat)
    ensures k <= |s| && |Encoded(s[..k])| <= keep
    ensures k < |s| ==> |Encoded(s[..k + 1])| > keep
  {
    if s == "" || |EncodeChar(s[0])| > keep then
      assert s != "" ==> s[..1] == [s[0]] && Encoded(s[..1]) == EncodeChar(s[0]) + Encoded("");
      0
    else
      var k := KeptChars(s[1..], keep - |EncodeChar(s[0])|);
      assert s[..k + 1][1..] == s[1..][..k];
      assert k + 1 < |s| ==> s[..k + 2][1..] == s[1..][..k + 1];
      k + 1
  }

  function KeptWithin(maxBytes: nat): nat {
    if maxBytes > MARKER_RESERVE then maxBytes - MARKER_RESERVE else 0
  }

  /** The longest prefix of whole characters within the reserve, and the marker. */
  function TruncatedText(s: string, maxBytes: nat): Option<string> {
    if |Encoded(s)| <= maxBytes then None
    else
      var k := KeptChars(s, KeptWithin(maxBytes));
      assert |Encoded(s[..k])| <= |Encoded(s)| by { EncodedPrefix(s, k); }
      Some(s[..k] + Marker(|Encoded(s)| - |Encoded(s[..k])|))
  }

  // ----------------------------------------------------------------- byte level

  lemma {:induction false} EncodedConcat(a: string, b: string)
    ensures Encoded(a + b) == Encoded(a) + Encoded(b)
  {
    if a == "" {
      assert a + b == b;
    } else {
      assert (a + b)[1..] == a[1..] + b;
      EncodedConcat(a[1..], b);
    }
  }

  lemma {:induction false} EncodedPrefix(s: string, k: nat)
    requires k <= |s|
    ensures |Encoded(s[..k])| <= |Encoded(s)|
    ensures Encoded(s)[..|Encoded(s[..k])|] == Encoded(s[..k])
  {
    EncodedConcat(s[..k], s[k..]);
    assert s[..k] + s[k..] == s;
  }

  lemma {:induction false} CharBytes(c: char)
    ensures var e := EncodeChar(c); !IsContinuation(e[0]) && forall k :: 0 < k < |e| ==> IsContinuation(e[k])
  {}

  /** Byte positions that look like boundaries are exactly the ends of whole-character prefixes. */
  lemma {:induction false} BoundaryIff(s: string, i: nat)
    requires i <= |Encoded(s)|
    ensures IsCharBoundary(Encoded(s), i) <==> exists k :: 0 <= k <= |s| && |Encoded(s[..k])| == i
  {
    var b := Encoded(s);
    if s == "" || i == 0 {
      assert s[..0] == "" && |Encoded(s[..0])| == 0;
    } else {
      var e, t := EncodeChar(s[0]), s[1..];
      CharBytes(s[0]);
      assert b == e + Encoded(t);
      forall k | 1 <= k <= |s| ensures |Encoded(s[..k])| == |e| + |Encoded(t[..k - 1])| {
        assert s[..k][1..] == t[..k - 1];
      }
      if i < |e| {
        assert b[i] == e[i];
        assert |Encoded(s[..0])| == 0;
      } else {
        BoundaryIff(t, i - |e|);
        assert i < |b| ==> b[i] == Encoded(t)[i - |e|];
        if IsCharBoundary(b, i) {
          FirstByteIsBoundary(t);
          assert IsCharBoundary(Encoded(t), i - |e|);
          var k :| 0 <= k <= |t| && |Encoded(t[..k])| == i - |e|;
          assert |Encoded(s[..k + 1])| == i;
        } else {
          FirstByteIsBoundary(t);
          assert |Encoded(s[..0])| == 0;
        }
      }
    }
  }

  lemma {:induction false} FirstByteIsBoundary(s: string)
    ensures Encoded(s) == [] || !IsContinuation(Encoded(s)[0])
  {
    if s != "" {
      CharBytes(s[0]);
    }
  }

  lemma {:induction false} EncodedMonotone(s: string, j: nat, k: nat)
    requires j <= k <= |s|
    ensures |Encoded(s[..j])| <= |Encoded(s[..k])|
    ensures j < k ==> |Encoded(s[..j])| < |Encoded(s[..k])|
  {
    assert s[..k] == s[..j] + s[j..k];
    EncodedConcat(s[..j], s[j..k]);
    if j < k {
      assert Encoded(s[j..k]) == EncodeChar(s[j]) + Encoded(s[j..k][1..]);
    }
  }

  /** The last boundary at or before `keep` ends the longest prefix that fits. */
  lemma {:induction false} LastBoundary(s: string, keep: nat, end: nat)
    requires end <= keep <= |Encoded(s)| && IsCharBoundary(Encoded(s), end)
    requires forall j :: end < j <= keep ==> !IsCharBoundary(Encoded(s), j)
    ensures end == |Encoded(s[..KeptChars(s, keep)])|
  {
    var k := KeptChars(s, keep);
    BoundaryIff(s, end);
    var m :| 0 <= m <= |s| && |Encoded(s[..m])| == end;
    if m < k {
      EncodedMonotone(s, m, k);
      BoundaryIff(s, |Encoded(s[..k])|);
    } else if k < m {
      EncodedMonotone(s, k + 1, m);
    }
  }

  /**
   The source's byte scan refines the character-level cut: nothing if the text fits,
   otherwise the encoding of the longest prefix of whole characters within the
   reserve, with the marker after it.
   */
  method TruncateTextToBytes(b: seq<Byte>, maxBytes: nat, ghost s: string) returns (r: Option<seq<Byte>>)
    requires b == Encoded(s)
    ensures TruncatedText(s, maxBytes).None? ==> r == None
    ensures TruncatedText(s, maxBytes).Some? ==> r == Some(Encoded(TruncatedText(s, maxBytes).value))
  {
    if |b| <= maxBytes {
      return None;
    }
    var keep := if maxBytes > MARKER_RESERVE then maxBytes - MARKER_RESERVE else 0;
    var end := if keep < |b| then keep else |b|;
    while end > 0 && !IsCharBoundary(b, end)
      invariant 0 <= end <= keep
      invariant forall j :: end < j <= keep ==> !IsCharBoundary(b, j)
    {
      end := end - 1;
    }
    LastBoundary(s, keep, end);
    ghost var k := KeptChars(s, keep);
    EncodedPrefix(s, k);
    var dropped := |b| - end;
    EncodedConcat(s[..k], Marker(dropped));
    r := Some(b[..end] + Encoded(Marker(dropped)));
  }

  /** The six bits of a continuation byte. */
  function SixBits(b: Byte): int { b as int - 0x80 }

  /** The bits of the bytes, in order, are the character's scalar value. */
  lemma {:induction false} CharDecodes(c: char)
    ensures var e, n := EncodeChar(c), c as int;
            var lead := e[0] as int;
            && (|e| == 1 ==> lead == n < 0x80)
            && (|e| == 2 ==> 0x80 <= n < 0x800 && 0xC2 <= lead < 0xE0 && (lead - 0xC0) * 0x40 + SixBits(e[1]) == n)
            && (|e| == 3 ==> 0x800 <= n < 0x10000 && 0xE0 <= lead < 0xF0
                             && (lead - 0xE0) * 0x1000 + SixBits(e[1]) * 0x40 + SixBits(e[2]) == n)
            && (|e| == 4 ==> 0x10000 <= n && 0xF0 <= lead < 0xF5
                             && (lead - 0xF0) * 0x40000 + SixBits(e[1]) * 0x1000 + SixBits(e[2]) * 0x40 + SixBits(e[3])
                                == n)
  {
    var n := c as int;
    assert n == n / 0x40 * 0x40 + n % 0x40;
    assert n / 0x40 == n / 0x1000 * 0x40 + n / 0x40 % 0x40;
    assert n / 0x1000 == n / 0x40000 * 0x40 + n / 0x1000 % 0x40;
  }

  /** The number that digits denote. */
  function NumberOf(digits: string): int {
    if digits == "" then 0
    else 10 * NumberOf(digits[..|digits| - 1]) + (digits[|digits| - 1] as int - '0' as int)
  }

  /** The dropped bytes are written as plain digits, without a leading zero. */
  lemma {:induction false} DecimalDenotes(n: nat)
    ensures NumberOf(Decimal(n)) == n && forall k :: 0 <= k < |Decimal(n)| ==> '0' <= Decimal(n)[k] <= '9'
    ensures Decimal(n)[0] == '0' <==> n == 0
  {
    if n < 10 {
      assert Decimal(n)[..0] == "";
    } else {
      DecimalDenotes(n / 10);
      assert Decimal(n)[..|Decimal(n)| - 1] == Decimal(n / 10);
    }
  }

  // --------------------------------------------------------------------- bounds

  lemma {:induction false} AsciiEncoding(s: string)
    requires forall k :: 0 <= k < |s| ==> s[k] < '\U{0080}'
    ensures |Encoded(s)| == |s|
  {
    if s != "" {
      AsciiEncoding(s[1..]);
    }
  }

  lemma {:induction false} DecimalIsAscii(n: nat)
    ensures forall k :: 0 <= k < |Decimal(n)| ==> Decimal(n)[k] < '\U{0080}'
  {
    if n >= 10 {
      DecimalIsAscii(n / 10);
    }
  }

  lemma {:induction false} MarkerLength(dropped: nat)
    ensures |Encoded(Marker(dropped))| == 56 + |Decimal(dropped)|
  {
    var head, digits, tail := MARKER_HEAD, Decimal(dropped), MARKER_TAIL;
    MarkerHeadSize();
    MarkerTailSize();
    hide Encoded, Decimal;
    DecimalIsAscii(dropped);
    AsciiEncoding(digits);
    EncodedConcat(head, digits);
    EncodedConcat(head + digits, tail);
  }

  lemma {:induction false} MarkerHeadSize()
    ensures |Encoded(MARKER_HEAD)| == 16
  {
    var head := MARKER_HEAD;
    assert forall k :: 0 <= k < |head| ==> head[k] < '\U{0080}';
    hide Encoded;
    AsciiEncoding(head);
  }

  lemma {:induction false} MarkerTailSize()
    ensures |Encoded(MARKER_TAIL)| == 40
  {
    var tail := MARKER_TAIL;
    assert forall k :: 0 <= k < |tail| ==> tail[k] < '\U{0080}';
    hide Encoded;
    AsciiEncoding(tail);
  }

  /**
   The cut gives up at most three bytes beyond the reserve, kept and dropped bytes
   add up to the input, and the result fits its budget when the budget covers the
   reserve and fewer than 10^8 bytes are dropped. Below the reserve nothing of the
   text is kept, and the marker alone decides: a budget of 56 bytes or less is
   always overrun.
   */
  lemma {:induction false} TruncationBounds(s: string, maxBytes: nat)
    requires |Encoded(s)| > maxBytes
    ensures var kept := |Encoded(s[..KeptChars(s, KeptWithin(maxBytes))])|;
            var dropped := |Encoded(s)| - kept;
            var size := |Encoded(TruncatedText(s, maxBytes).value)|;
            && kept <= KeptWithin(maxBytes) <= kept + 3
            && 0 < dropped && size == kept + 56 + |Decimal(dropped)|
            && (maxBytes >= MARKER_RESERVE ==>
                 (size <= maxBytes <==> |Decimal(dropped)| <= 8 + (KeptWithin(maxBytes) - kept)))
            && (maxBytes >= MARKER_RESERVE && dropped < 100_000_000 ==> size <= maxBytes)
            && (maxBytes < MARKER_RESERVE ==>
                 kept == 0 && (size <= maxBytes <==> 56 + |Decimal(|Encoded(s)|)| <= maxBytes))
            && (maxBytes <= 56 ==> size > maxBytes)
  {
    var keep := KeptWithin(maxBytes);
    var k := KeptChars(s, keep);
    EncodedPrefix(s, k);
    assert s[..|s|] == s;
    assert s[..k + 1] == s[..k] + [s[k]];
    EncodedConcat(s[..k], [s[k]]);
    assert Encoded([s[k]]) == EncodeChar(s[k]) + Encoded("");
    var dropped := |Encoded(s)| - |Encoded(s[..k])|;
    MarkerLength(dropped);
    EncodedConcat(s[..k], Marker(dropped));
    DecimalLength(dropped, 8);
    PowersOfTen();
  }

  lemma {:induction false} DecimalLength(n: nat, k: nat)
    requires 1 <= k
    ensures |Decimal(n)| <= k <==> n < Pow10(k)
  {
    if n >= 10 && k > 1 {
      DecimalLength(n / 10, k - 1);
    } else if n >= 10 {
      assert Pow10(1) == 10;
      assert |Decimal(n / 10)| >= 1;
    } else {
      Pow10Positive(k - 1);
    }
  }

  lemma {:induction false} Pow10Positive(k: nat)
    ensures Pow10(k) >= 1
  {
    if k > 0 {
      Pow10Positive(k - 1);
    }
  }

  lemma {:induction false} PowersOfTen()
    ensures Pow10(8) == 100_000_000
  {
    assert Pow10(2) == 100;
    assert Pow10(4) == 10_000;
    assert Pow10(6) == 1_000_000;
  }
}
