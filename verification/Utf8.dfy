/** What the reader accepts as text: exactly the UTF-8 encodings of Unicode scalar values, one after the other. */
module Utf8 {
  import opened Bytes
  import opened Wrappers
  import opened Wire

  /** A Unicode scalar value: what a `char` can hold. */
  predicate Scalar(c: nat) {
    LeafValid(Char, c)
  }

  /** The UTF-8 form of a scalar value: six bits a byte from the end, the rest in the first byte. */
  function EncodeScalar(c: nat): (r: seq<Byte>)
    requires Scalar(c)
  {
    if c < 0x80 then [c]
    else if c < 0x800 then [0xC0 + c / 64, 0x80 + c % 64]
    else if c < 0x1_0000 then [0xE0 + c / 4096, 0x80 + c / 64 % 64, 0x80 + c % 64]
    else [0xF0 + c / 26_2144, 0x80 + c / 4096 % 64, 0x80 + c / 64 % 64, 0x80 + c % 64]
  }

  predicate Scalars(cs: seq<nat>) {
    forall c <- cs :: Scalar(c)
  }

  function EncodeText(cs: seq<nat>): seq<Byte>
    requires Scalars(cs)
  {
    if cs == [] then [] else EncodeScalar(cs[0]) + EncodeText(cs[1..])
  }

  // ----- One scalar value -----

  /** The six bits of a continuation byte. */
  function Six(b: Byte): nat
    requires b >= 0x80
  {
    b as int - 0x80
  }

  function Lead(b: Byte, base: nat): nat
    requires b >= base
  {
    b as int - base
  }

  /** The scalar value that a sequence of one to four bytes spells. */
  function Spelled(bs: seq<Byte>): nat
    requires Utf8Head(bs) > 0
  {
    match Utf8Head(bs)
    case 1 => bs[0]
    case 2 => Lead(bs[0], 0xC0) * 64 + Six(bs[1])
    case 3 => (Lead(bs[0], 0xE0) * 64 + Six(bs[1])) * 64 + Six(bs[2])
    case _ => ((Lead(bs[0], 0xF0) * 64 + Six(bs[1])) * 64 + Six(bs[2])) * 64 + Six(bs[3])
  }

  lemma {:induction false} Digits(a: nat, b: nat)
    requires b < 64
    ensures (a * 64 + b) / 64 == a && (a * 64 + b) % 64 == b
  {
  }

  lemma {:induction false} Quotients(c: nat)
    ensures c / 64 / 64 == c / 4096 && c / 4096 / 64 == c / 26_2144
    ensures c == c / 64 * 64 + c % 64
  {
  }

  /** A well-formed head is the encoding of the value it spells. */
  lemma {:induction false} HeadIsScalar(bs: seq<Byte>)
    requires Utf8Head(bs) > 0
    ensures Scalar(Spelled(bs)) && EncodeScalar(Spelled(bs)) == bs[..Utf8Head(bs)]
  {
    if Utf8Head(bs) == 2 {
      Digits(Lead(bs[0], 0xC0), Six(bs[1]));
    } else if Utf8Head(bs) == 3 {
      ThreeSpell(bs);
    } else if Utf8Head(bs) == 4 {
      FourSpell(bs);
    }
  }

  lemma {:induction false} ThreeSpell(bs: seq<Byte>)
    requires Utf8Head(bs) == 3
    ensures Scalar(Spelled(bs)) && EncodeScalar(Spelled(bs)) == bs[..3]
  {
    var x, y, z := Lead(bs[0], 0xE0), Six(bs[1]), Six(bs[2]);
    Digits(x * 64 + y, z);
    Digits(x, y);
    Quotients(Spelled(bs));
  }

  lemma {:induction false} FourSpell(bs: seq<Byte>)
    requires Utf8Head(bs) == 4
    ensures Scalar(Spelled(bs)) && EncodeScalar(Spelled(bs)) == bs[..4]
  {
    var x, y, z, w := Lead(bs[0], 0xF0), Six(bs[1]), Six(bs[2]), Six(bs[3]);
    Digits((x * 64 + y) * 64 + z, w);
    Digits(x * 64 + y, z);
    Digits(x, y);
    Quotients(Spelled(bs));
  }

  lemma {:induction false} TwoBytes(c: nat, bs: seq<Byte>)
    requires 0x80 <= c < 0x800 && |bs| >= 2 && bs[0] == 0xC0 + c / 64 && bs[1] == 0x80 + c % 64
    ensures Utf8Head(bs) == 2 && Spelled(bs) == c
  {
  }

  lemma {:induction false} ThreeBytes(c: nat, bs: seq<Byte>)
    requires Scalar(c) && 0x800 <= c < 0x1_0000
    requires |bs| >= 3 && bs[0] == 0xE0 + c / 4096 && bs[1] == 0x80 + c / 64 % 64 && bs[2] == 0x80 + c % 64
    ensures Utf8Head(bs) == 3 && Spelled(bs) == c
  {
    Quotients(c);
    Quotients(c / 64);
  }

  lemma {:induction false} FourBytes(c: nat, bs: seq<Byte>)
    requires 0x1_0000 <= c < 0x11_0000
    requires |bs| >= 4 && bs[0] == 0xF0 + c / 26_2144 && bs[1] == 0x80 + c / 4096 % 64
    requires bs[2] == 0x80 + c / 64 % 64 && bs[3] == 0x80 + c % 64
    ensures Utf8Head(bs) == 4 && Spelled(bs) == c
  {
    Quotients(c);
    Quotients(c / 64);
    Quotients(c / 4096);
  }

  /** The encoding of a scalar value is well formed, whatever follows it. */
  lemma {:induction false} ScalarIsHead(c: nat, rest: seq<Byte>)
    requires Scalar(c)
    ensures Utf8Head(EncodeScalar(c) + rest) == |EncodeScalar(c)| > 0
    ensures Spelled(EncodeScalar(c) + rest) == c
  {
    var bs := EncodeScalar(c) + rest;
    if c < 0x80 {
      assert bs[0] == c;
    } else {
      hide Utf8Head, Spelled;
      if c < 0x800 {
        TwoBytes(c, bs);
      } else if c < 0x1_0000 {
        ThreeBytes(c, bs);
      } else {
        FourBytes(c, bs);
      }
    }
  }

  // ----- Texts -----

  /** The scalar values of a well-formed text. */
  function DecodeText(bs: seq<Byte>): seq<nat>
    requires ValidUtf8(bs)
  {
    if bs == [] then [] else [Spelled(bs)] + DecodeText(bs[Utf8Head(bs)..])
  }

  lemma {:induction false} TextIsScalars(bs: seq<Byte>)
    requires ValidUtf8(bs)
    ensures Scalars(DecodeText(bs)) && EncodeText(DecodeText(bs)) == bs
  {
    hide Utf8Head, EncodeScalar, Spelled;
    if bs != [] {
      var n := Utf8Head(bs);
      HeadIsScalar(bs);
      TextIsScalars(bs[n..]);
      var cs := DecodeText(bs);
      assert cs[1..] == DecodeText(bs[n..]);
      assert bs == bs[..n] + bs[n..];
    }
  }

  lemma {:induction false} ScalarsAreText(cs: seq<nat>)
    requires Scalars(cs)
    ensures ValidUtf8(EncodeText(cs)) && DecodeText(EncodeText(cs)) == cs
  {
    hide Utf8Head, EncodeScalar, Spelled;
    if cs != [] {
      var head, rest := EncodeScalar(cs[0]), EncodeText(cs[1..]);
      ScalarsAreText(cs[1..]);
      ScalarIsHead(cs[0], rest);
      assert (head + rest)[|head|..] == rest;
      assert cs == [cs[0]] + cs[1..];
    }
  }

  /** Bytes are a valid text if and only if they are the UTF-8 forms of some scalar values, and these are unique. */
  lemma {:induction false} TextIffScalars(bs: seq<Byte>)
    ensures ValidUtf8(bs) <==> exists cs :: Scalars(cs) && EncodeText(cs) == bs
    ensures forall cs, ds :: Scalars(cs) && Scalars(ds) && EncodeText(cs) == bs && EncodeText(ds) == bs ==> cs == ds
  {
    hide ValidUtf8, EncodeText, DecodeText, Scalars;
    if ValidUtf8(bs) {
      TextIsScalars(bs);
    }
    forall cs | Scalars(cs) && EncodeText(cs) == bs ensures ValidUtf8(bs) && DecodeText(bs) == cs {
      ScalarsAreText(cs);
    }
  }

  // ----- Leaves -----

  /**
   Which slots are a leaf: every one for integers and floats, 0 and 1 for `bool`, scalar values for `char`,
   the tags of its variants for an enum. What is read is the slot's number, in two's complement if it is signed.
   */
  lemma {:induction false} LeafSlots(k: Leaf, n: nat)
    requires n < Pow256(LeafWidth(k))
    ensures ReadLeaf(k, n).Ok? <==>
            match k
            case Bool => n == 0 || n == 1
            case Char => exists bs :: ValidUtf8(bs) && DecodeText(bs) == [n]
            case Tag(variants) => n < variants
            case _ => true
    ensures ReadLeaf(k, n).Err? ==>
              ReadLeaf(k, n).error == if k.Bool? then InvalidBool(n) else if k.Char? then InvalidChar(n) else InvalidTag(n)
    ensures ReadLeaf(k, n).Ok? ==> ReadLeaf(k, n).value == if k.I? && 2 * n >= Pow256(k.w) then n - Pow256(k.w) else n
  {
    hide ValidUtf8, DecodeText, Pow256;
    match k
    case I(w) => SignedSlots(w, n);
    case Char => CharIsText(n);
    case Tag(_) => OneByte();
    case _ =>
  }

  lemma {:induction false} SignedSlots(w: Width, n: nat)
    requires n < Pow256(w)
    ensures ReadLeaf(I(w), n) == Ok(if 2 * n >= Pow256(w) then n - Pow256(w) else n)
  {
    assert Pow256(w) == 256 * Pow256(w - 1);
  }

  lemma {:induction false} OneByte()
    ensures Pow256(1) == 256
  {
  }

  lemma {:induction false} CharIsText(n: nat)
    ensures Scalar(n) <==> exists bs :: ValidUtf8(bs) && DecodeText(bs) == [n]
  {
    hide ValidUtf8, Utf8Head, Spelled, EncodeScalar, EncodeText, DecodeText;
    if Scalar(n) {
      ScalarsAreText([n]);
    }
    forall bs | ValidUtf8(bs) && DecodeText(bs) == [n] ensures Scalar(n) {
      TextIsScalars(bs);
      assert n in DecodeText(bs);
    }
  }
}
