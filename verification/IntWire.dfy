/** Integers on the wire: writeInt, readInt and byteswap for any width and byte order.

    An integer of w bytes is kept in memory as w bytes, in the order of the host; a signed one
    as its two's complement.
 */
module IntWire {
  import opened Bytes
  import opened Streams
  import opened StreamExt

  datatype Endian = Big | Little

  // The w base-256 digits of an unsigned value, least significant first.
  function Digits(value: nat, w: nat): (s: seq<byte>)
    ensures |s| == w
  {
    if w == 0 then [] else [(value % 256) as byte] + Digits(value / 256, w - 1)
  }

  function Value(s: seq<byte>): (r: nat) {
    if s == [] then 0 else s[0] as nat + 256 * Value(s[1..])
  }

  function Power(w: nat): (p: nat)
    ensures p > 0
  {
    if w == 0 then 1 else 256 * Power(w - 1)
  }

  lemma {:induction false} ValueOfDigits(value: nat, w: nat)
    requires value < Power(w)
    ensures Value(Digits(value, w)) == value
  {
    if w > 0 {
      ValueOfDigits(value / 256, w - 1);
    }
  }

  lemma {:induction false} DigitsOfValue(s: seq<byte>)
    ensures Value(s) < Power(|s|) && Digits(Value(s), |s|) == s
  {
    if s != [] {
      DigitsOfValue(s[1..]);
    }
  }

  // The i-th base-256 digit.
  function Digit(value: nat, i: nat): (d: nat)
    ensures d < 256
  {
    if i == 0 then value % 256 else Digit(value / 256, i - 1)
  }

  lemma {:induction false} DigitAt(value: nat, w: nat, i: nat)
    requires i < w
    ensures Digits(value, w)[i] as int == Digit(value, i)
  {
    if i > 0 {
      DigitAt(value / 256, w - 1, i - 1);
    }
  }

  // The same by one division.
  lemma {:induction false} DigitIsQuotient(value: nat, i: nat)
    ensures Digit(value, i) == value / Power(i) % 256
  {
    if i > 0 {
      DigitIsQuotient(value / 256, i - 1);
      DivideTwice(value, Power(i - 1));
    }
  }

  lemma DivideTwice(value: nat, p: nat)
    requires p > 0
    ensures value / 256 / p == value / (256 * p)
  {
    var x, d := value / 256, value % 256;
    var q, s := x / p, x % p;
    assert value == q * (256 * p) + (256 * s + d) by {
      assert x == q * p + s;
      assert 256 * (q * p) == q * (256 * p);
    }
    QuotientIs(value, 256 * p, q, 256 * s + d);
  }

  lemma QuotientIs(value: nat, m: nat, q: nat, rest: nat)
    requires value == q * m + rest && rest < m
    ensures value / m == q
  {
    var q', rest' := value / m, value % m;
    assert (q - q') * m == rest' - rest;
    if q' < q {
      AtLeastOnce(q - q', m);
    } else if q < q' {
      AtLeastOnce(q' - q, m);
    }
  }

  lemma AtLeastOnce(k: nat, m: nat)
    requires k > 0
    ensures k * m >= m
  {
    assert k * m == (k - 1) * m + m;
  }

  function Reversed(s: seq<byte>): (r: seq<byte>)
    ensures |r| == |s| && forall i | 0 <= i < |s| :: r[i] == s[|s| - 1 - i]
  {
    if s == [] then [] else Reversed(s[1..]) + [s[0]]
  }

  lemma ReversedTwice(s: seq<byte>)
    ensures Reversed(Reversed(s)) == s
  {
  }

  // The integers of w bytes.
  predicate InRange(value: int, w: nat, signed: bool) {
    if signed then 0 <= 2 * value + Power(w) < 2 * Power(w) else 0 <= value < Power(w)
  }

  function ToUnsigned(value: int, w: nat): (r: int) {
    if value < 0 then value + Power(w) else value
  }

  function FromUnsigned(u: nat, w: nat, signed: bool): (r: int) {
    if signed && 2 * u >= Power(w) then u - Power(w) else u
  }

  lemma TwosComplement(u: nat, w: nat, signed: bool)
    requires u < Power(w)
    ensures InRange(FromUnsigned(u, w, signed), w, signed) && ToUnsigned(FromUnsigned(u, w, signed), w) == u
  {
  }

  // The bytes of a value in a given order, as the wire format or a host lays them out.
  function Encoded(value: int, w: nat, order: Endian): (r: seq<byte>)
    requires 0 <= ToUnsigned(value, w)
  {
    var digits := Digits(ToUnsigned(value, w), w);
    if order == Little then digits else Reversed(digits)
  }

  // The value that memory of a host with this byte order stands for.
  function Decoded(s: seq<byte>, signed: bool, order: Endian): (r: int) {
    FromUnsigned(Value(if order == Little then s else Reversed(s)), |s|, signed)
  }

  // Big puts the most significant digit first, Little the least significant one; a negative
  // value is taken as its two's complement.
  lemma EncodedDigits(value: int, w: nat, signed: bool, order: Endian, i: nat)
    requires InRange(value, w, signed) && i < w
    ensures var u := if value < 0 then value + Power(w) else value;
      Encoded(value, w, order)[i] as int == Digit(u, if order == Big then w - 1 - i else i)
  {
    var u, k := ToUnsigned(value, w), if order == Big then w - 1 - i else i;
    assert Encoded(value, w, order)[i] == Digits(u, w)[k];
    DigitAt(u, w, k);
  }

  lemma DecodedOfEncoded(value: int, w: nat, signed: bool, order: Endian)
    requires InRange(value, w, signed)
    ensures Decoded(Encoded(value, w, order), signed, order) == value
  {
    var digits := Digits(ToUnsigned(value, w), w);
    ValueOfDigits(ToUnsigned(value, w), w);
    ReversedTwice(digits);
  }

  lemma EncodedOfDecoded(s: seq<byte>, signed: bool, order: Endian)
    ensures InRange(Decoded(s, signed, order), |s|, signed)
    ensures Encoded(Decoded(s, signed, order), |s|, order) == s
  {
    var digits := if order == Little then s else Reversed(s);
    DigitsOfValue(digits);
    TwosComplement(Value(digits), |s|, signed);
    ReversedTwice(s);
  }

  // The portable byteswap: exchange the bytes from both ends in place.
  method Byteswap(a: array<byte>)
    modifies a
    ensures a[..] == Reversed(old(a[..]))
  {
    var n := a.Length;
    for i := 0 to n / 2
      invariant forall k | 0 <= k < n :: a[k] == old(if k < i || k >= n - i then a[n - 1 - k] else a[k])
    {
      a[i], a[n - i - 1] := a[n - i - 1], a[i];
    }
  }

  // Write an integer of w bytes: swapped when the host's order is not the one asked for.
  method WriteInt(sink: Sink, value: int, w: nat, signed: bool, host: Endian, wire: Endian) returns (r: Result<()>)
    requires InRange(value, w, signed)
    modifies sink
    ensures r.Ok? ==> sink.written == old(sink.written) + Encoded(value, w, wire)
    ensures forall i | 0 <= i < w ::
      var u := if value < 0 then value + Power(w) else value;
      Encoded(value, w, wire)[i] as int == Digit(u, if wire == Big then w - 1 - i else i)
    ensures r.Err? ==> !r.error.UnexpectedEof?
  {
    forall i | 0 <= i < w {
      EncodedDigits(value, w, signed, wire, i);
    }
    var memory := new byte[w];
    CopyTo(memory, 0, Encoded(value, w, host));
    assert memory[..] == Encoded(value, w, host);
    if host != wire {
      Byteswap(memory);
      OtherOrder(value, w, host, wire);
    }
    var wrote := WriteAll(sink, memory[..]);
    r := if wrote.Ok? then Ok(()) else Err(wrote.error);
  }

  // Read an integer of w bytes.  It consumes exactly the bytes that WriteInt puts on the wire
  // for the value it returns.
  method ReadInt(source: Source, w: nat, signed: bool, host: Endian, wire: Endian) returns (r: Result<int>)
    modifies source
    ensures r.Ok? ==> InRange(r.value, w, signed) && old(source.rest) == Encoded(r.value, w, wire) + source.rest
    ensures r.Err? && r.error.UnexpectedEof? ==> |old(source.rest)| < w
  {
    var memory := new byte[w];
    var read := ReadAll(source, memory);
    if read.Err? {
      return Err(read.error);
    }
    ghost var got := memory[..];
    if host != wire {
      Byteswap(memory);
      ReversedTwice(got);
    }
    var value := Decoded(memory[..], signed, host);
    EncodedOfDecoded(memory[..], signed, host);
    OtherOrder(value, w, host, wire);
    r := Ok(value);
  }

  lemma OtherOrder(value: int, w: nat, host: Endian, wire: Endian)
    requires 0 <= ToUnsigned(value, w)
    ensures host != wire ==> Encoded(value, w, wire) == Reversed(Encoded(value, w, host))
  {
    ReversedTwice(Digits(ToUnsigned(value, w), w));
  }

  // The bytes on the wire determine the value.
  lemma EncodedOnce(v: int, u: int, w: nat, signed: bool, order: Endian, a: seq<byte>, b: seq<byte>)
    requires InRange(v, w, signed) && InRange(u, w, signed)
    requires Encoded(v, w, order) + a == Encoded(u, w, order) + b
    ensures v == u && a == b
  {
    var x, y := Encoded(v, w, order), Encoded(u, w, order);
    assert x == (x + a)[..w] && y == (y + b)[..w] && a == (x + a)[w..] && b == (y + b)[w..];
    DecodedOfEncoded(v, w, signed, order);
    DecodedOfEncoded(u, w, signed, order);
  }

  // What a host writes, a host of either byte order reads back.
  method WriteThenRead(value: int, w: nat, signed: bool, writer: Endian, reader: Endian, wire: Endian)
    returns (r: Result<int>)
    requires InRange(value, w, signed)
    ensures r.Ok? ==> r.value == value
    ensures r.Err? ==> !r.error.UnexpectedEof?
  {
    var sink := new Sink([]);
    var wrote := WriteInt(sink, value, w, signed, writer, wire);
    if wrote.Err? {
      return Err(wrote.error);
    }
    var source := new Source(sink.written);
    r := ReadInt(source, w, signed, reader, wire);
    if r.Ok? {
      EncodedOnce(value, r.value, w, signed, wire, [], source.rest);
    }
  }
}
