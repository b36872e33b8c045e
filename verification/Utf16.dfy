/** UTF-16 as in sections 2.1 and 2.2 of RFC 2781, and the lengths of UTF-8 as in section 3 of
  * RFC 3629: what `encode_utf16`, `decode_utf16` and `String::push` do in `unicode.rs`. */
module Utf16 {
  import opened Basics

  type u16 = x: int | 0 <= x < 0x1_0000

  /** A Unicode scalar value, the `char` of the source. */
  type Scalar = x: int | 0 <= x < 0xD800 || 0xE000 <= x < 0x11_0000

  predicate High(u: u16) { 0xD800 <= u < 0xDC00 }
  predicate Low(u: u16) { 0xDC00 <= u < 0xE000 }

  function EncodeScalar(c: Scalar): (r: seq<u16>)
    ensures 1 <= |r| <= 2
  {
    if c < 0x1_0000 then [c]
    else [0xD800 + (c - 0x1_0000) / 0x400, 0xDC00 + (c - 0x1_0000) % 0x400]
  }

  function Encode(s: seq<Scalar>): seq<u16> {
    if s == [] then [] else EncodeScalar(s[0]) + Encode(s[1..])
  }

  /** What the decoder reads at the head of the units: a scalar value and how many units it
    * took, or an unpaired surrogate. */
  datatype Head = Unpaired | Read(c: Scalar, n: nat)

  function DecodeHead(u: seq<u16>): (h: Head)
    requires u != []
    ensures h.Read? ==> 1 <= h.n <= 2 && h.n <= |u|
  {
    if !High(u[0]) && !Low(u[0]) then Read(u[0], 1)
    else if High(u[0]) && |u| > 1 && Low(u[1]) then
      var hi: int, lo: int := u[0], u[1];
      Read(0x1_0000 + (hi - 0xD800) * 0x400 + (lo - 0xDC00), 2)
    else Unpaired
  }

  function Decode(u: seq<u16>): Option<seq<Scalar>>
    decreases |u|
  {
    if u == [] then Some([])
    else
      match DecodeHead(u)
      case Unpaired => None
      case Read(c, n) =>
        match Decode(u[n..])
        case None => None
        case Some(rest) => Some([c] + rest)
  }

  function Utf8Size(c: Scalar): nat {
    if c < 0x80 then 1 else if c < 0x800 then 2 else if c < 0x1_0000 then 3 else 4
  }

  function Utf8Length(s: seq<Scalar>): nat {
    if s == [] then 0 else Utf8Size(s[0]) + Utf8Length(s[1..])
  }

  /** The units that stand for a scalar value, by their bits: one unit outside the surrogates, or a
    * high and a low surrogate with ten bits each of the offset beyond the first plane. */
  ghost predicate StandsFor(u: seq<u16>, c: Scalar) {
    || (|u| == 1 && u[0] == c && !(0xD800 <= u[0] <= 0xDFFF))
    || (|u| == 2 && 0xD800 <= u[0] <= 0xDBFF && 0xDC00 <= u[1] <= 0xDFFF
        && c - 0x1_0000 == (u[0] as int - 0xD800) * 1024 + (u[1] as int - 0xDC00))
  }

  /** Each scalar value has exactly one form in units, and it is the one that is written. */
  lemma OneFormInUnits(u: seq<u16>, c: Scalar)
    ensures StandsFor(u, c) <==> u == EncodeScalar(c)
  {
    if StandsFor(u, c) && |u| == 2 {
      var high, low := u[0] - 0xD800, u[1] - 0xDC00;
      assert (c - 0x1_0000) / 0x400 == high && (c - 0x1_0000) % 0x400 == low;
    }
  }

  /** The bytes of a scalar value in UTF-8: `n` bytes suffice exactly for the values that fit the
    * bits which `n` bytes carry. */
  lemma BytesSuffice(c: Scalar, n: nat)
    ensures Utf8Size(c) <= n <==>
              if n == 0 then false
              else if n == 1 then c <= 0x7F
              else if n == 2 then c <= 0x7FF
              else if n == 3 then c <= 0xFFFF
              else true
  {
  }

  lemma HeadOfEncoding(c: Scalar, rest: seq<u16>)
    ensures DecodeHead(EncodeScalar(c) + rest) == Read(c, |EncodeScalar(c)|)
  {
    var u := EncodeScalar(c) + rest;
    if c < 0x1_0000 {
      assert u[0] == c;
    } else {
      assert u[0] == 0xD800 + (c - 0x1_0000) / 0x400 && u[1] == 0xDC00 + (c - 0x1_0000) % 0x400;
    }
  }

  lemma EncodingOfHead(u: seq<u16>)
    requires u != [] && DecodeHead(u).Read?
    ensures EncodeScalar(DecodeHead(u).c) == u[..DecodeHead(u).n]
  {
    if High(u[0]) {
      var c: int := DecodeHead(u).c;
      assert (c - 0x1_0000) / 0x400 == u[0] - 0xD800 && (c - 0x1_0000) % 0x400 == u[1] - 0xDC00;
    }
  }

  /** Decoding undoes encoding. */
  lemma {:induction false} DecodeEncode(s: seq<Scalar>)
    ensures Decode(Encode(s)) == Some(s)
  {
    if s != [] {
      var u := Encode(s);
      HeadOfEncoding(s[0], Encode(s[1..]));
      assert u[|EncodeScalar(s[0])|..] == Encode(s[1..]);
      DecodeEncode(s[1..]);
      assert s == [s[0]] + s[1..];
    }
  }

  lemma DecodeCons(u: seq<u16>)
    requires u != [] && Decode(u).Some?
    ensures var h := DecodeHead(u);
            h.Read? && Decode(u[h.n..]).Some? && Decode(u).value == [h.c] + Decode(u[h.n..]).value
  {
  }

  lemma EncodeCons(c: Scalar, rest: seq<Scalar>)
    ensures Encode([c] + rest) == EncodeScalar(c) + Encode(rest)
  {
    assert ([c] + rest)[1..] == rest;
  }

  lemma EncodeHeadAndRest(u: seq<u16>, c: Scalar, n: nat, rest: seq<Scalar>)
    requires u != [] && DecodeHead(u) == Read(c, n) && Encode(rest) == u[n..]
    ensures Encode([c] + rest) == u
  {
    EncodeCons(c, rest);
    EncodingOfHead(u);
    assert u == u[..n] + u[n..];
  }

  /** Units that decode are the encoding of what they decode to. */
  lemma {:induction false} EncodeDecode(u: seq<u16>)
    requires Decode(u).Some?
    ensures Encode(Decode(u).value) == u
    decreases |u|
  {
    if u != [] {
      var h := DecodeHead(u);
      DecodeCons(u);
      EncodeDecode(u[h.n..]);
      EncodeHeadAndRest(u, h.c, h.n, Decode(u[h.n..]).value);
    }
  }

  /** Every high surrogate is followed by a low one, every low one follows a high one. */
  ghost predicate Paired(u: seq<u16>) {
    && (forall i :: 0 <= i < |u| && High(u[i]) ==> i + 1 < |u| && Low(u[i + 1]))
    && (forall i :: 0 <= i < |u| && Low(u[i]) ==> i > 0 && High(u[i - 1]))
  }

  lemma TailOfPaired(u: seq<u16>, n: nat)
    requires u != [] && Paired(u) && DecodeHead(u).Read? && n == DecodeHead(u).n
    ensures Paired(u[n..])
  {
    var t := u[n..];
    forall i | 0 <= i < |t| && High(t[i]) ensures i + 1 < |t| && Low(t[i + 1]) {
      assert t[i] == u[i + n];
    }
    forall i | 0 <= i < |t| && Low(t[i]) ensures i > 0 && High(t[i - 1]) {
      assert t[i] == u[i + n] && High(u[i + n - 1]);
    }
  }

  lemma PairedFromTail(u: seq<u16>, n: nat)
    requires u != [] && DecodeHead(u).Read? && n == DecodeHead(u).n && Paired(u[n..])
    ensures Paired(u)
  {
    var t := u[n..];
    assert forall i :: n <= i < |u| ==> u[i] == t[i - n];
    forall i | 0 <= i < |u| && High(u[i]) ensures i + 1 < |u| && Low(u[i + 1]) {
      if i >= n {
        assert High(t[i - n]);
        assert t[i - n + 1] == u[i + 1];
      }
    }
    forall i | 0 <= i < |u| && Low(u[i]) ensures i > 0 && High(u[i - 1]) {
      if i >= n {
        assert Low(t[i - n]);
        assert t[i - n - 1] == u[i - 1];
      }
    }
  }

  lemma PairedTail(u: seq<u16>)
    requires u != []
    ensures Paired(u) <==> DecodeHead(u).Read? && Paired(u[DecodeHead(u).n..])
  {
    var h := DecodeHead(u);
    if Paired(u) {
      assert !Low(u[0]) && (High(u[0]) ==> Low(u[1]));
      TailOfPaired(u, h.n);
    } else if h.Read? && Paired(u[h.n..]) {
      PairedFromTail(u, h.n);
    }
  }

  /** Decoding succeeds exactly on the sequences without an unpaired surrogate. */
  lemma {:induction false} DecodesIffPaired(u: seq<u16>)
    ensures Decode(u).Some? <==> Paired(u)
    decreases |u|
  {
    if u != [] {
      PairedTail(u);
      if DecodeHead(u).Read? {
        DecodesIffPaired(u[DecodeHead(u).n..]);
      }
    }
  }

  /** Encoding works piece by piece. */
  lemma {:induction false} EncodeConcat(a: seq<Scalar>, b: seq<Scalar>)
    ensures Encode(a + b) == Encode(a) + Encode(b)
  {
    if a == [] {
      assert a + b == b;
    } else {
      assert (a + b)[1..] == a[1..] + b;
      EncodeConcat(a[1..], b);
    }
  }

  /** UTF-8 takes at least one and at most three bytes for each UTF-16 unit; one exactly in a text of
    * ASCII characters, and three exactly in a text of characters that take three bytes each. */
  lemma {:induction false} ThreeBytesPerUnit(s: seq<Scalar>)
    ensures |Encode(s)| <= Utf8Length(s) <= 3 * |Encode(s)|
    ensures Utf8Length(s) == |Encode(s)| <==> forall i :: 0 <= i < |s| ==> s[i] <= 0x7F
    ensures Utf8Length(s) == 3 * |Encode(s)| <==> forall i :: 0 <= i < |s| ==> 0x800 <= s[i] <= 0xFFFF
  {
    if s != [] {
      ThreeBytesPerUnit(s[1..]);
      assert forall i :: 1 <= i < |s| ==> s[i] == s[1..][i - 1];
    }
  }
}
