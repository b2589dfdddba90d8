/** Serial numbers as database keys: eight bytes, most significant first. */
module KeyOrder {
  import opened Messages

  type Byte = b: nat | b < 256

  function BigEndian(n: nat, width: nat): (bytes: seq<Byte>)
    ensures |bytes| == width
  {
    if width == 0 then [] else BigEndian(n / 256, width - 1) + [n % 256]
  }

  function LittleEndian(n: nat, width: nat): (bytes: seq<Byte>)
    ensures |bytes| == width
  {
    if width == 0 then [] else [n % 256] + LittleEndian(n / 256, width - 1)
  }

  /** What decoding an unsigned integer from little-endian bytes yields. */
  function Decode(bytes: seq<Byte>): nat {
    if bytes == [] then 0 else bytes[0] + 256 * Decode(bytes[1..])
  }

  function Power256(width: nat): nat {
    if width == 0 then 1 else 256 * Power256(width - 1)
  }

  function Reversed(bytes: seq<Byte>): (r: seq<Byte>) {
    if bytes == [] then [] else Reversed(bytes[1..]) + [bytes[0]]
  }

  lemma {:induction false} ReversedAt(bytes: seq<Byte>, i: nat)
    requires i < |bytes|
    ensures |Reversed(bytes)| == |bytes| && Reversed(bytes)[i] == bytes[|bytes| - 1 - i]
  {
    if |bytes| > 1 {
      ReversedAt(bytes[1..], if i < |bytes| - 1 then i else 0);
    }
  }

  lemma {:induction false} ReversingLittleEndian(n: nat, width: nat)
    ensures Reversed(LittleEndian(n, width)) == BigEndian(n, width)
  {
    if width > 0 {
      ReversingLittleEndian(n / 256, width - 1);
      assert LittleEndian(n, width)[1..] == LittleEndian(n / 256, width - 1);
    }
  }

  /** The key of a serial number, on a machine of either byte order: the platform bytes, reversed in place if
      the platform is little-endian. */
  method ToKey(serial: nat, littleEndian: bool) returns (key: array<Byte>)
    requires serial < U64_LIMIT
    ensures fresh(key) && key[..] == BigEndian(serial, 8)
  {
    var bytes := if littleEndian then LittleEndian(serial, 8) else BigEndian(serial, 8);
    key := new Byte[8](i requires 0 <= i < 8 => bytes[i]);
    assert key[..] == bytes;
    if littleEndian {
      ReverseBytes(key);
      ReversingLittleEndian(serial, 8);
    }
  }

  method ReverseBytes(key: array<Byte>)
    modifies key
    ensures key[..] == Reversed(old(key[..]))
  {
    var i, j := 0, key.Length;
    while i + 1 < j
      invariant 0 <= i <= j <= key.Length && i + j == key.Length
      invariant forall k :: 0 <= k < i ==> key[k] == old(key[key.Length - 1 - k])
      invariant forall k :: j <= k < key.Length ==> key[k] == old(key[key.Length - 1 - k])
      invariant forall k :: i <= k < j ==> key[k] == old(key[k])
    {
      j := j - 1;
      key[i], key[j] := key[j], key[i];
      i := i + 1;
    }
    ghost var was := old(key[..]);
    assert |Reversed(was)| == |was| by {
      if |was| > 0 {
        ReversedAt(was, 0);
      }
    }
    forall k | 0 <= k < key.Length ensures key[..][k] == Reversed(was)[k] {
      ReversedAt(was, k);
    }
  }

  // ---------- order ----------

  /** The byte order of the database. */
  predicate Before(xs: seq<Byte>, ys: seq<Byte>) {
    if xs == [] || ys == [] then |xs| < |ys|
    else xs[0] < ys[0] || (xs[0] == ys[0] && Before(xs[1..], ys[1..]))
  }

  lemma {:induction false} BeforeSnoc(xs: seq<Byte>, x: Byte, ys: seq<Byte>, y: Byte)
    requires |xs| == |ys|
    ensures Before(xs + [x], ys + [y]) <==> Before(xs, ys) || (xs == ys && x < y)
  {
    if xs == [] {
      assert Before([x], [y]) <==> x < y;
      assert xs + [x] == [x] && ys + [y] == [y];
    } else {
      assert (xs + [x])[1..] == xs[1..] + [x] && (ys + [y])[1..] == ys[1..] + [y];
      BeforeSnoc(xs[1..], x, ys[1..], y);
      assert xs == ys <==> xs[0] == ys[0] && xs[1..] == ys[1..];
    }
  }

  lemma {:induction false} BigEndianOrder(a: nat, b: nat, width: nat)
    requires a < Power256(width) && b < Power256(width)
    ensures Before(BigEndian(a, width), BigEndian(b, width)) <==> a < b
    ensures BigEndian(a, width) == BigEndian(b, width) <==> a == b
  {
    if width > 0 {
      var p, q := BigEndian(a / 256, width - 1), BigEndian(b / 256, width - 1);
      BigEndianOrder(a / 256, b / 256, width - 1);
      BeforeSnoc(p, a % 256, q, b % 256);
      assert BigEndian(a, width) == BigEndian(b, width) <==> p == q && a % 256 == b % 256 by {
        assert BigEndian(a, width)[..width - 1] == p && BigEndian(b, width)[..width - 1] == q;
        assert BigEndian(a, width)[width - 1] == a % 256 && BigEndian(b, width)[width - 1] == b % 256;
      }
    }
  }

  lemma U64Width()
    ensures Power256(8) == U64_LIMIT
  {
    assert Power256(4) == 0x1_0000_0000;
    assert Power256(6) == 256 * (256 * Power256(4));
    assert Power256(8) == 256 * (256 * Power256(6));
  }

  /** Keys are ordered as the serials are, so iterating the database visits messages in enqueue order. */
  lemma KeysInSerialOrder(a: nat, b: nat)
    requires a < U64_LIMIT && b < U64_LIMIT
    ensures Before(BigEndian(a, 8), BigEndian(b, 8)) <==> a < b
    ensures BigEndian(a, 8) == BigEndian(b, 8) <==> a == b
  {
    U64Width();
    BigEndianOrder(a, b, 8);
  }

  lemma {:induction false} DecodeLittleEndian(n: nat, width: nat)
    requires n < Power256(width)
    ensures Decode(LittleEndian(n, width)) == n
  {
    if width > 0 {
      DecodeLittleEndian(n / 256, width - 1);
      assert LittleEndian(n, width)[1..] == LittleEndian(n / 256, width - 1);
    }
  }

  lemma {:induction false} ReversingBigEndian(n: nat, width: nat)
    ensures Reversed(BigEndian(n, width)) == LittleEndian(n, width)
  {
    if width > 0 {
      ReversingBigEndian(n / 256, width - 1);
      ReversedSnoc(BigEndian(n / 256, width - 1), n % 256);
    }
  }

  lemma {:induction false} ReversedSnoc(xs: seq<Byte>, x: Byte)
    ensures Reversed(xs + [x]) == [x] + Reversed(xs)
  {
    if xs != [] {
      ReversedSnoc(xs[1..], x);
      assert (xs + [x])[1..] == xs[1..] + [x];
    }
  }

  /** Reversing a stored key and decoding it gives the serial back. */
  lemma KeyRoundTrip(serial: nat)
    requires serial < U64_LIMIT
    ensures Decode(Reversed(BigEndian(serial, 8))) == serial
  {
    U64Width();
    ReversingBigEndian(serial, 8);
    DecodeLittleEndian(serial, 8);
  }

  /** Seeking to the key after the greatest buffered serial skips exactly the buffered prefix, unless that
      serial is the greatest of all: then the sum wraps to zero and the seek skips nothing, which is why the
      loop compares each serial again. */
  lemma SeekSkipsPrefix(greatest: nat, k: nat)
    requires greatest < U64_LIMIT && k < U64_LIMIT
    ensures !Before(BigEndian(k, 8), BigEndian(SeekTarget(greatest), 8)) <==> k > greatest || greatest + 1 == U64_LIMIT
  {
    TargetWraps(greatest);
    KeysInSerialOrder(k, SeekTarget(greatest));
  }

  /** `maxBufferedSerialNumber + 1` in 64-bit arithmetic. */
  function SeekTarget(greatest: nat): nat {
    (greatest + 1) % U64_LIMIT
  }

  lemma TargetWraps(greatest: nat)
    requires greatest < U64_LIMIT
    ensures SeekTarget(greatest) == if greatest + 1 == U64_LIMIT then 0 else greatest + 1
  {
  }
}
