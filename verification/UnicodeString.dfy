/** UNICODE_STRING values (`unicode.rs`): owned, in a fixed buffer, and converted back. */
module UnicodeStrings {
  import opened Basics
  import opened Utf16

  datatype Error = TooLong | AllocationFailed | InvalidUtf16

  datatype Result<+T> = Ok(value: T) | Err(error: Error)

  const MAX_UNITS := 0xFFFF / 2

  /** `UNICODE_STRING`: lengths in bytes, and the buffer. */
  datatype UnicodeString = UnicodeString(length: u16, maximumLength: u16, buffer: array?<u16>)

  /** `x as u16`: the cast keeps the low sixteen bits. */
  function AsU16(x: nat): u16 {
    x % 0x1_0000
  }

  /** What the source asks of the buffer of a UNICODE_STRING that is read. */
  ghost predicate Readable(s: UnicodeString)
    reads s.buffer
  {
    s.buffer != null ==> s.length / 2 <= s.buffer.Length
  }

  /** `unicode_string_as_slice`: the units within the byte length, none without a buffer. */
  function AsSlice(s: UnicodeString): seq<u16>
    requires Readable(s)
    reads s.buffer
  {
    if s.buffer == null || s.length == 0 then [] else s.buffer[..s.length / 2]
  }

  /** Where the decoder stands: `out` encodes to the units read, and together with what the
    * rest decodes to it makes up the decoding of them all. */
  ghost predicate Decoded(u: seq<u16>, at: nat, out: seq<Scalar>) {
    && at <= |u|
    && Encode(out) == u[..at]
    && Decode(u) == match Decode(u[at..]) case None => None case Some(rest) => Some(out + rest)
  }

  lemma DecodeStep(u: seq<u16>, at: nat, out: seq<Scalar>)
    requires Decoded(u, at, out) && at < |u| && DecodeHead(u[at..]).Read?
    ensures var h := DecodeHead(u[at..]); Decoded(u, at + h.n, out + [h.c])
  {
    var tail := u[at..];
    var h := DecodeHead(tail);
    EncodedSoFar(tail, out);
    assert u[..at] + tail[..h.n] == u[..at + h.n];
    assert tail[h.n..] == u[at + h.n..];
    var later := Decode(tail[h.n..]);
    if later.Some? {
      assert out + ([h.c] + later.value) == (out + [h.c]) + later.value;
    }
  }

  lemma EncodedSoFar(tail: seq<u16>, out: seq<Scalar>)
    requires tail != [] && DecodeHead(tail).Read?
    ensures var h := DecodeHead(tail); Encode(out + [h.c]) == Encode(out) + tail[..h.n]
  {
    var h := DecodeHead(tail);
    EncodingOfHead(tail);
    EncodeConcat(out, [h.c]);
    assert Encode([h.c]) == EncodeScalar(h.c);
  }

  lemma DecodeStart(u: seq<u16>)
    ensures Decoded(u, 0, [])
  {
    assert u[0..] == u;
    if Decode(u).Some? {
      assert [] + Decode(u).value == Decode(u).value;
    }
  }

  lemma DecodeEnd(u: seq<u16>, out: seq<Scalar>)
    requires Decoded(u, |u|, out)
    ensures Decode(u) == Some(out) && Encode(out) == u
  {
    assert u[|u|..] == [] && u[..|u|] == u && out + [] == out;
  }

  /** The units as a text, or the error that they are none. */
  function Converted(u: seq<u16>): Result<seq<Scalar>> {
    match Decode(u)
    case None => Err(InvalidUtf16)
    case Some(t) => Ok(t)
  }

  /** `unicode_string_to_string`: the decoding, when it is one and the reservation is granted;
    * the text never grows past the bytes reserved for it. */
  method ToScalars(s: UnicodeString, reserved: bool) returns (r: Result<seq<Scalar>>)
    requires Readable(s)
    ensures !reserved ==> r == Err(AllocationFailed)
    ensures reserved ==> r == Converted(AsSlice(s))
    ensures r.Ok? ==> Utf8Length(r.value) <= 3 * |AsSlice(s)|
    ensures reserved ==> (r.Ok? <==> Paired(AsSlice(s)))
    ensures r.Ok? ==> Encode(r.value) == AsSlice(s)
    ensures reserved && s.buffer == null ==> r == Ok([])
    ensures reserved && s.buffer != null ==> r == Converted(s.buffer[..s.length / 2])
  {
    var units := AsSlice(s);
    var reserve := |units| * 3;
    if !reserved {
      return Err(AllocationFailed);
    }
    DecodesIffPaired(units);
    DecodeStart(units);
    var out: seq<Scalar>, at := [], 0;
    while at < |units|
      invariant Decoded(units, at, out)
      invariant Utf8Length(out) <= reserve
    {
      var h := DecodeHead(units[at..]);
      if h.Unpaired? {
        return Err(InvalidUtf16);
      }
      DecodeStep(units, at, out);
      out, at := out + [h.c], at + h.n;
      ThreeBytesPerUnit(out);
    }
    DecodeEnd(units, out);
    r := Ok(out);
  }

  class OwnedUnicodeString {
    const inner: UnicodeString
    const buffer: array<u16>

    /** A terminated buffer, with lengths that were not cut off. */
    ghost predicate Holds(value: seq<Scalar>)
      reads buffer
    {
      var n := |Encode(value)|;
      && 2 * (n + 1) <= 0xFFFF
      && buffer.Length == n + 1 && buffer[..n] == Encode(value) && buffer[n] == 0
      && inner.buffer == buffer
      && inner.length == 2 * n && inner.maximumLength == 2 * n + 2
    }

    constructor (inner: UnicodeString, buffer: array<u16>)
      ensures this.inner == inner && this.buffer == buffer
    {
      this.inner, this.buffer := inner, buffer;
    }
  }

  /** `OwnedUnicodeString::new_in`: refused exactly when the units and the terminator do not
    * fit the 16-bit byte counts; otherwise the buffer holds the encoding. */
  method NewIn(value: seq<Scalar>, granted: bool) returns (r: Result<OwnedUnicodeString>)
    ensures r == Err(TooLong) <==> 2 * (|Encode(value)| + 1) > 0xFFFF
    ensures r == Err(AllocationFailed) <==> 2 * (|Encode(value)| + 1) <= 0xFFFF && !granted
    ensures r.Ok? || r == Err(TooLong) || r == Err(AllocationFailed)
    ensures r.Ok? ==> fresh(r.value) && fresh(r.value.buffer) && r.value.Holds(value)
  {
    var units := Encode(value);
    var len := |units|;
    if len + 1 > MAX_UNITS {
      return Err(TooLong);
    }
    if !granted {
      return Err(AllocationFailed);
    }
    var buffer := new u16[len + 1];
    for idx := 0 to len
      invariant buffer[..idx] == units[..idx]
    {
      buffer[idx] := units[idx];
    }
    assert buffer[..len] == units;
    buffer[len] := 0;
    assert buffer[..len] == units;
    var owned := new OwnedUnicodeString(UnicodeString(AsU16(len * 2), AsU16((len + 1) * 2), buffer), buffer);
    r := Ok(owned);
  }

  /** Building an owned string and converting it back yields the text it was built from, for
    * every text that fits; every other text is refused. */
  method BuildAndConvert(value: seq<Scalar>) returns (r: Result<seq<Scalar>>)
    ensures r == if 2 * (|Encode(value)| + 1) <= 0xFFFF then Ok(value) else Err(TooLong)
  {
    var made := NewIn(value, true);
    if made.Err? {
      return Err(made.error);
    }
    assert AsSlice(made.value.inner) == Encode(value);
    DecodeEncode(value);
    r := ToScalars(made.value.inner, true);
  }

  // ---- the string in a fixed buffer ----

  function CapUnits(n: nat): nat {
    if n < MAX_UNITS then n else MAX_UNITS
  }

  class LocalUnicodeString {
    const buffer: array<u16>
    var len: nat

    /** The buffer holds the encoding of `text`, and there is always a terminator when the
      * buffer has any room at all. */
    ghost predicate Holds(text: seq<Scalar>)
      reads this, buffer
    {
      && len == |Encode(text)| <= buffer.Length
      && buffer[..len] == Encode(text)
      && (buffer.Length > 0 ==> len < buffer.Length && 2 * (len + 1) <= 0xFFFF && buffer[len] == 0)
    }

    constructor (n: nat)
      ensures Holds([]) && fresh(buffer) && buffer.Length == n
    {
      buffer := new u16[n](_ => 0);
      len := 0;
    }

    method Clear()
      requires len <= buffer.Length
      modifies this, buffer
      ensures Holds([])
    {
      len := 0;
      if buffer.Length != 0 {
        buffer[0] := 0;
      }
    }

    /** `try_push_str`: a push that does not fit changes nothing at all. */
    method TryPush(piece: seq<Scalar>, ghost text: seq<Scalar>) returns (r: Result<()>)
      requires Holds(text)
      modifies this`len, buffer
      ensures r.Ok? <==> |Encode(text)| + |Encode(piece)| < buffer.Length
                         && 2 * (|Encode(text)| + |Encode(piece)| + 1) <= 0xFFFF
      ensures r.Ok? ==> Holds(text + piece)
      ensures r.Err? ==> r.error == TooLong && len == old(len) && buffer[..] == old(buffer[..])
    {
      var units := Encode(piece);
      if len + |units| + 1 > CapUnits(buffer.Length) {
        return Err(TooLong);
      }
      for idx := 0 to |units|
        invariant len == old(len)
        invariant buffer[..len] == old(buffer[..len])
        invariant buffer[len..len + idx] == units[..idx]
      {
        buffer[len + idx] := units[idx];
      }
      EncodeConcat(text, piece);
      assert buffer[..len + |units|] == buffer[..len] + buffer[len..len + |units|];
      assert units[..|units|] == units;
      len := len + |units|;
      assert buffer[..len] == Encode(text + piece);
      if len < buffer.Length {
        buffer[len] := 0;
      }
      assert buffer[..len] == Encode(text + piece);
      r := Ok(());
    }

    /** `as_unicode_ref`: the byte lengths are exact. */
    method AsUnicodeRef(ghost text: seq<Scalar>) returns (s: UnicodeString)
      requires Holds(text)
      ensures s.buffer == buffer && s.length == 2 * |Encode(text)|
      ensures s.maximumLength == if buffer.Length <= 32767 then 2 * buffer.Length else 65534
      ensures Readable(s) && AsSlice(s) == Encode(text)
    {
      s := UnicodeString(AsU16(len * 2), AsU16(CapUnits(buffer.Length) * 2), buffer);
    }

    /** Any sequence of pushes, some refused, and clears: the string holds the pieces accepted
      * since the last clear, and reads back as their concatenation. */
    method Apply(edits: seq<Edit>, ghost text: seq<Scalar>) returns (r: Result<seq<Scalar>>)
      requires Holds(text)
      modifies this, buffer
      ensures Holds(Kept(buffer.Length, text, edits))
      ensures r == Ok(Kept(buffer.Length, text, edits))
    {
      ghost var now := text;
      for k := 0 to |edits|
        invariant Holds(now)
        invariant Kept(buffer.Length, text, edits) == Kept(buffer.Length, now, edits[k..])
      {
        assert edits[k..][0] == edits[k] && edits[k..][1..] == edits[k + 1..];
        match edits[k] {
          case Clear =>
            Clear();
            now := [];
          case Push(piece) =>
            var ok := TryPush(piece, now);
            now := if ok.Ok? then now + piece else now;
        }
      }
      assert edits[|edits|..] == [];
      var s := AsUnicodeRef(now);
      DecodeEncode(now);
      r := ToScalars(s, true);
    }
  }

  predicate Fits(n: nat, units: nat) {
    units < n && 2 * (units + 1) <= 0xFFFF
  }

  datatype Edit = Clear | Push(piece: seq<Scalar>)

  /** The text that the edits leave in a buffer of `n` units: a piece is skipped when it does not fit
    * with the terminator, or when their bytes cannot be counted in sixteen bits. */
  function Kept(n: nat, text: seq<Scalar>, edits: seq<Edit>): seq<Scalar>
    decreases |edits|
  {
    if edits == [] then text
    else
      var next :=
        match edits[0]
        case Clear => []
        case Push(piece) => if Fits(n, |Encode(text)| + |Encode(piece)|) then text + piece else text;
      Kept(n, next, edits[1..])
  }
}
