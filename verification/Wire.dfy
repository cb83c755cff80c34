/** The Protocol Buffers wire format as the log codec reads and writes it:
  * base 128 varints, the skipping of one field, and the framing of a message into items.
  */
module Wire {
  import opened Common

  const TWO_31: int := 0x8000_0000
  const TWO_32: int := 0x1_0000_0000
  const TWO_63: int := 0x8000_0000_0000_0000
  const TWO_64: int := 0x1_0000_0000_0000_0000

  datatype Error =
    | IntOverflow
    | UnexpectedEOF
    | InvalidLength
    | EndGroup
    | IllegalTag
    | WrongWireType(field: nat)
    | IllegalWireType
    | RequiredNotSet(name: string)

  // ---------------------------------------------------------------- varints

  /** A decoded varint: its value and the number of bytes it took. */
  datatype Varint = Varint(value: nat, len: nat)

  /** The varint at the front of `s`, before truncation to the width of the variable it goes to.
    * At most `left` bytes are read.
    */
  function RawVarint(s: seq<byte>, left: nat): (r: Result<Varint, Error>)
    ensures r.Ok? ==> 1 <= r.value.len <= |s| && r.value.len <= left
    decreases |s|
  {
    if left == 0 then Err(IntOverflow)
    else if s == [] then Err(UnexpectedEOF)
    else if s[0] < 128 then Ok(Varint(s[0], 1))
    else
      var rest :- RawVarint(s[1..], left - 1);
      Ok(Varint(s[0] - 128 + 128 * rest.value, rest.len + 1))
  }

  /** The varint at the front of `s` as a 64-bit unsigned number. */
  function DecodeVarint(s: seq<byte>): (r: Result<Varint, Error>)
    ensures r.Ok? ==> 1 <= r.value.len <= |s| && r.value.value < TWO_64
  {
    var v :- RawVarint(s, 10);
    Ok(Varint(v.value % TWO_64, v.len))
  }

  /** The shortest varint of `v`. */
  function EncodeVarint(v: nat): (s: seq<byte>)
    ensures |s| >= 1
  {
    if v < 128 then [v] else [v % 128 + 128] + EncodeVarint(v / 128)
  }

  /** Go's conversions between the integer types of the codec. */
  function Int64(v: nat): (r: int)
    requires v < TWO_64
    ensures -TWO_63 <= r < TWO_63
  {
    if v < TWO_63 then v else v - TWO_64
  }

  function FieldNumber(key: nat): (r: int)
    ensures -TWO_31 <= r < TWO_31
  {
    var low := key / 8 % TWO_32;
    if low < TWO_31 then low else low - TWO_32
  }

  /** Both conversions keep the number modulo the width of the type, as Go's do. */
  lemma ConversionsWrap(v: nat, key: nat)
    requires v < TWO_64
    ensures (Int64(v) - v) % 0x1_0000_0000_0000_0000 == 0
    ensures (FieldNumber(key) - key / 8) % 0x1_0000_0000 == 0
  {
    var q := key / 8 / TWO_32;
    assert key / 8 == TWO_32 * q + key / 8 % TWO_32;
    WholeMultiple(FieldNumber(key) - key / 8, if FieldNumber(key) >= 0 then -q else -q - 1);
  }

  lemma WholeMultiple(n: int, k: int)
    requires n == TWO_32 * k
    ensures n % TWO_32 == 0
  {
  }

  function Pow2(n: nat): (r: nat)
    ensures r > 0
  {
    if n == 0 then 1 else 2 * Pow2(n - 1)
  }

  /** `uint64(x) << shift`. */
  function ShiftLeft64(x: nat, shift: nat): (r: nat)
    ensures r < TWO_64
  {
    x * Pow2(shift) % TWO_64
  }

  lemma Pow2Septet(n: nat)
    ensures Pow2(n + 7) == 128 * Pow2(n)
  {
    assert Pow2(n + 7) == 2 * Pow2(n + 6) == 4 * Pow2(n + 5) == 8 * Pow2(n + 4);
    assert Pow2(n + 4) == 2 * Pow2(n + 3) == 4 * Pow2(n + 2) == 8 * Pow2(n + 1);
  }

  lemma Pow2Mono(m: nat, n: nat)
    requires m <= n
    ensures Pow2(m) <= Pow2(n)
  {
  }

  lemma Pow2Of63()
    ensures Pow2(63) == TWO_63 && Pow2(70) == 128 * TWO_63
  {
    Pow2Septet(0); Pow2Septet(7); Pow2Septet(14); Pow2Septet(21); Pow2Septet(28);
    Pow2Septet(35); Pow2Septet(42); Pow2Septet(49); Pow2Septet(56); Pow2Septet(63);
  }

  /** A varint of up to ten bytes, read back with anything after it. */
  lemma {:induction false} RawVarintOfEncoding(v: nat, left: nat, rest: seq<byte>)
    requires left > 0 && v < Pow2(7 * left)
    ensures |EncodeVarint(v)| <= left
    ensures RawVarint(EncodeVarint(v) + rest, left) == Ok(Varint(v, |EncodeVarint(v)|))
  {
    var s := EncodeVarint(v) + rest;
    if v >= 128 {
      Pow2Septet(7 * (left - 1));
      RawVarintOfEncoding(v / 128, left - 1, rest);
      assert s[1..] == EncodeVarint(v / 128) + rest;
    }
  }

  lemma DecodeOfEncoding(v: nat, rest: seq<byte>)
    requires v < TWO_64
    ensures |EncodeVarint(v)| <= 10
    ensures DecodeVarint(EncodeVarint(v) + rest) == Ok(Varint(v, |EncodeVarint(v)|))
  {
    Pow2Of63();
    RawVarintOfEncoding(v, 10, rest);
  }

  lemma {:induction false} RawVarintFails(s: seq<byte>, left: nat)
    ensures RawVarint(s, left).Err? <==> forall i :: 0 <= i < left && i < |s| ==> s[i] >= 128
    ensures RawVarint(s, left).Err? ==> RawVarint(s, left).error == if |s| < left then UnexpectedEOF else IntOverflow
  {
    if left > 0 && s != [] && s[0] >= 128 {
      RawVarintFails(s[1..], left - 1);
      assert forall i :: 0 <= i < |s| - 1 ==> s[1..][i] == s[i + 1];
      assert forall i :: 0 < i < |s| ==> s[i] == s[1..][i - 1];
    }
  }

  /** Reading fails exactly if no byte ends the varint: none of the first ten, which overflows, or none at all. */
  lemma DecodeFailsIff(s: seq<byte>)
    ensures DecodeVarint(s).Err? <==> forall i :: 0 <= i < 10 && i < |s| ==> s[i] >= 128
    ensures DecodeVarint(s).Err? ==> DecodeVarint(s).error == if |s| < 10 then UnexpectedEOF else IntOverflow
  {
    RawVarintFails(s, 10);
  }

  /** Only the bytes of the varint itself decide how it is read. */
  lemma {:induction false} RawVarintIsLocal(s: seq<byte>, t: seq<byte>, left: nat)
    requires RawVarint(s, left).Ok?
    requires var n := RawVarint(s, left).value.len; n <= |t| && t[..n] == s[..n]
    ensures RawVarint(t, left) == RawVarint(s, left)
  {
    var n := RawVarint(s, left).value.len;
    assert t[0] == t[..n][0] == s[..n][0] == s[0];
    if s[0] >= 128 {
      assert s[1..][..n - 1] == s[..n][1..] == t[..n][1..] == t[1..][..n - 1];
      RawVarintIsLocal(s[1..], t[1..], left - 1);
    }
  }

  lemma DecodeIsLocal(s: seq<byte>, t: seq<byte>)
    requires DecodeVarint(s).Ok?
    requires var n := DecodeVarint(s).value.len; n <= |t| && t[..n] == s[..n]
    ensures DecodeVarint(t) == DecodeVarint(s)
  {
    RawVarintIsLocal(s, t, 10);
  }

  lemma {:induction false} EncodingIsMonotone(a: nat, b: nat)
    requires a <= b
    ensures |EncodeVarint(a)| <= |EncodeVarint(b)|
  {
    if a >= 128 {
      EncodingIsMonotone(a / 128, b / 128);
    }
  }

  /** No encoding of a value is shorter than the one `EncodeVarint` picks. */
  lemma {:induction false} EncodingIsShortest(s: seq<byte>, left: nat)
    requires RawVarint(s, left).Ok?
    ensures |EncodeVarint(RawVarint(s, left).value.value)| <= RawVarint(s, left).value.len
  {
    if s[0] >= 128 {
      EncodingIsShortest(s[1..], left - 1);
      var v := RawVarint(s, left).value.value;
      assert v / 128 == RawVarint(s[1..], left - 1).value.value;
    }
  }

  /** Reads a varint at `start`, as every loop over `shift` in the codec does.
    * The operands of the program's `|=` occupy disjoint bits, so it is written as an addition.
    */
  method ReadVarint(data: seq<byte>, start: nat) returns (r: Result<Varint, Error>)
    requires start <= |data|
    ensures r == DecodeVarint(data[start..])
  {
    var wire, shift, i := 0, 0, start;
    ghost var s := data[start..];
    while true
      invariant start <= i <= |data| && shift == 7 * (i - start) <= 70
      invariant Reading(s, i - start, wire)
      decreases |data| - i
    {
      if shift >= 64 {
        return Err(IntOverflow);
      }
      if i >= |data| {
        return Err(UnexpectedEOF);
      }
      var b := data[i];
      ReadStep(s, i - start, wire);
      i := i + 1;
      wire := wire + ShiftLeft64(b % 128, shift);
      if b < 128 {
        return Ok(Varint(wire, i - start));
      }
      shift := shift + 7;
    }
  }

  /** The sum of the first `k` septets of `s`. */
  ghost function LowSeptets(s: seq<byte>, k: nat): (r: nat)
    requires k <= |s|
  {
    if k == 0 then 0 else LowSeptets(s, k - 1) + s[k - 1] % 128 * Pow2(7 * (k - 1))
  }

  /** The result of the whole read once the low `k` septets have been consumed. */
  ghost function Continued(low: nat, k: nat, rest: Result<Varint, Error>): (r: Result<Varint, Error>) {
    match rest
    case Err(e) => Err(e)
    case Ok(x) => Ok(Varint(low + Pow2(7 * k) * x.value, k + x.len))
  }

  /** What holds of the loop in `ReadVarint` after `k` bytes with the high bit set. */
  ghost predicate Reading(s: seq<byte>, k: nat, wire: int) {
    && k <= |s| && k <= 10
    && LowSeptets(s, k) < Pow2(7 * k)
    && wire == LowSeptets(s, k) % TWO_64
    && RawVarint(s, 10) == Continued(LowSeptets(s, k), k, RawVarint(s[k..], 10 - k))
  }

  lemma ReadStep(s: seq<byte>, k: nat, wire: int)
    requires Reading(s, k, wire) && k < |s| && k < 10
    ensures var wire' := wire + ShiftLeft64(s[k] % 128, 7 * k);
            if s[k] < 128 then DecodeVarint(s) == Ok(Varint(wire', k + 1)) else Reading(s, k + 1, wire')
  {
    hide RawVarint, ShiftLeft64, Pow2, LowSeptets, Continued;
    AddSeptet(LowSeptets(s, k), 7 * k, s[k] % 128);
    Unfold(LowSeptets(s, k), k, s[k..], s[k] % 128);
    assert s[k..][0] == s[k] && s[k..][1..] == s[k + 1..];
    NextSeptet(s, k);
  }

  lemma NextSeptet(s: seq<byte>, k: nat)
    requires k < |s|
    ensures LowSeptets(s, k + 1) == LowSeptets(s, k) + s[k] % 128 * Pow2(7 * k)
  {
    hide Pow2;
  }

  lemma Unfold(low: nat, k: nat, s: seq<byte>, d: nat)
    requires k < 10 && s != [] && d == s[0] % 128
    ensures Continued(low, k, RawVarint(s, 10 - k)) ==
            if s[0] < 128 then Ok(Varint(low + d * Pow2(7 * k), k + 1))
            else Continued(low + d * Pow2(7 * k), k + 1, RawVarint(s[1..], 9 - k))
  {
    hide Pow2, Continued;
    if s[0] < 128 {
      assert RawVarint(s, 10 - k) == Ok(Varint(d, 1));
      ContinuedOk(low, k, Varint(d, 1));
      Commute(Pow2(7 * k), d);
    } else {
      var rest := RawVarint(s[1..], 9 - k);
      if rest.Err? {
        ContinuedErr(low, k, rest.error);
        ContinuedErr(low + d * Pow2(7 * k), k + 1, rest.error);
      } else {
        assert RawVarint(s, 10 - k) == Ok(Varint(d + 128 * rest.value.value, rest.value.len + 1));
        UnfoldMore(low, k, d, rest.value);
      }
    }
  }

  lemma UnfoldMore(low: nat, k: nat, d: nat, x: Varint)
    ensures Continued(low, k, Ok(Varint(d + 128 * x.value, x.len + 1))) == Continued(low + d * Pow2(7 * k), k + 1, Ok(x))
  {
    hide Pow2, Continued;
    ContinuedOk(low, k, Varint(d + 128 * x.value, x.len + 1));
    ContinuedOk(low + d * Pow2(7 * k), k + 1, x);
    Pow2Septet(7 * k);
    Regroup(low, Pow2(7 * k), d, x.value);
  }

  lemma Commute(p: nat, b: nat)
    ensures p * b == b * p
  {
  }

  lemma ContinuedOk(low: nat, k: nat, x: Varint)
    ensures Continued(low, k, Ok(x)) == Ok(Varint(low + Pow2(7 * k) * x.value, k + x.len))
  {
    hide Pow2;
  }

  lemma ContinuedErr(low: nat, k: nat, e: Error)
    ensures Continued(low, k, Err(e)) == Err(e)
  {
  }

  lemma Regroup(low: nat, p: nat, b: nat, x: nat)
    ensures low + p * (b + 128 * x) == (low + b * p) + (128 * p) * x
  {
    calc {
      p * (b + 128 * x);
      p * b + p * (128 * x);
      b * p + (128 * p) * x;
    }
  }

  /** One step of the decoding loop keeps the truncated sum equal to the exact one. */
  lemma AddSeptet(acc: nat, shift: nat, b: nat)
    requires acc < Pow2(shift) && shift <= 63 && shift % 7 == 0 && b < 128
    ensures acc + b * Pow2(shift) < Pow2(shift + 7)
    ensures acc % TWO_64 + ShiftLeft64(b, shift) == (acc + b * Pow2(shift)) % TWO_64
  {
    Pow2Septet(shift);
    SumBound(acc, b, Pow2(shift));
    Pow2Of63();
    if shift < 63 {
      Pow2Mono(shift + 7, 63);
      NoTruncation(acc, b * Pow2(shift));
    } else {
      TopSeptet(acc, b);
    }
  }

  lemma SumBound(acc: nat, b: nat, p: nat)
    requires acc < p && b < 128
    ensures 0 <= b * p && acc + b * p < 128 * p
  {
    TimesIsMonotone(b, 127, p);
  }

  lemma TimesIsMonotone(a: nat, b: nat, p: nat)
    requires a <= b
    ensures 0 <= a * p <= b * p
  {
    assert (b - a) * p >= 0;
    assert b * p == a * p + (b - a) * p;
  }

  lemma NoTruncation(acc: nat, x: nat)
    requires acc + x < TWO_64
    ensures acc % TWO_64 + x % TWO_64 == (acc + x) % TWO_64
  {
  }

  lemma TopSeptet(acc: nat, b: nat)
    requires acc < TWO_63
    ensures acc % TWO_64 + b * TWO_63 % TWO_64 == (acc + b * TWO_63) % TWO_64
  {
    var q, r := b / 2, b % 2;
    assert b * TWO_63 == r * TWO_63 + TWO_64 * q;
    ModOfSum(r * TWO_63, q);
    ModOfSum(acc + r * TWO_63, q);
  }

  lemma ModOfSum(x: nat, q: nat)
    requires x < TWO_64
    ensures (x + TWO_64 * q) % TWO_64 == x
  {
  }
}
