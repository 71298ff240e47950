/** Unpadded base64 as Go's RawStdEncoding and RawURLEncoding encode and decode it. */
module Base64 {
  import opened Outcomes

  type Byte = b: int | 0 <= b < 256

  datatype Alphabet = Std | Url

  function Symbol(a: Alphabet, v: nat): char
    requires v < 64
  {
    if v < 26 then ('A' as int + v) as char
    else if v < 52 then ('a' as int + v - 26) as char
    else if v < 62 then ('0' as int + v - 52) as char
    else if v == 62 then (if a.Std? then '+' else '-')
    else (if a.Std? then '/' else '_')
  }

  function Sextet(a: Alphabet, c: char): Option<nat> {
    if 'A' <= c <= 'Z' then Some(c as int - 'A' as int)
    else if 'a' <= c <= 'z' then Some(c as int - 'a' as int + 26)
    else if '0' <= c <= '9' then Some(c as int - '0' as int + 52)
    else if c == (if a.Std? then '+' else '-') then Some(62)
    else if c == (if a.Std? then '/' else '_') then Some(63)
    else None
  }

  lemma SextetOfSymbol(a: Alphabet, v: nat)
    requires v < 64
    ensures Sextet(a, Symbol(a, v)) == Some(v)
  {
  }

  function Encode(a: Alphabet, bs: seq<Byte>): string
    decreases |bs|, 1
  {
    if bs == [] then [] else EncodeGroups(a, bs)
  }

  /** Three bytes to four symbols; the last group may be of one or two bytes. */
  function EncodeGroups(a: Alphabet, bs: seq<Byte>): string
    requires bs != []
    decreases |bs|, 0
  {
    if |bs| == 1 then
      [Symbol(a, bs[0] / 4), Symbol(a, bs[0] % 4 * 16)]
    else if |bs| == 2 then
      [Symbol(a, bs[0] / 4), Symbol(a, bs[0] % 4 * 16 + bs[1] / 16), Symbol(a, bs[1] % 16 * 4)]
    else
      [Symbol(a, bs[0] / 4), Symbol(a, bs[0] % 4 * 16 + bs[1] / 16),
       Symbol(a, bs[1] % 16 * 4 + bs[2] / 64), Symbol(a, bs[2] % 64)]
      + Encode(a, bs[3..])
  }

  /** Line breaks are skipped wherever they stand. */
  function WithoutBreaks(s: string): (r: string)
    ensures |r| <= |s|
  {
    if s == [] then []
    else (if s[0] == '\r' || s[0] == '\n' then [] else [s[0]]) + WithoutBreaks(s[1..])
  }

  function Sextets(a: Alphabet, s: string): Option<seq<nat>>
    decreases |s|, 1
  {
    if s == [] then Some([]) else FirstSextet(a, s)
  }

  function FirstSextet(a: Alphabet, s: string): Option<seq<nat>>
    requires s != []
    decreases |s|, 0
  {
    var v, vs := Sextet(a, s[0]), Sextets(a, s[1..]);
    if v.Some? && vs.Some? then Some([v.value] + vs.value) else None
  }

  predicate InRange(vs: seq<nat>) {
    forall i :: 0 <= i < |vs| ==> vs[i] < 64
  }

  lemma {:induction false} SextetsInRange(a: Alphabet, s: string)
    ensures Sextets(a, s).Some? ==> InRange(Sextets(a, s).value)
  {
    if s != [] {
      SextetsInRange(a, s[1..]);
    }
  }

  function Bytes(vs: seq<nat>): Option<seq<Byte>>
    requires InRange(vs)
    decreases |vs|, 1
  {
    if vs == [] then Some([]) else Groups(vs)
  }

  /** Groups of four; the last may be of two or three, whose spare bits are ignored, but not of one. */
  function Groups(vs: seq<nat>): Option<seq<Byte>>
    requires InRange(vs) && vs != []
    decreases |vs|, 0
  {
    if |vs| == 1 then None
    else if |vs| == 2 then Some([vs[0] * 4 + vs[1] / 16])
    else if |vs| == 3 then Some([vs[0] * 4 + vs[1] / 16, vs[1] % 16 * 16 + vs[2] / 4])
    else
      match Bytes(vs[4..])
      case None => None
      case Some(rest) =>
        Some([vs[0] * 4 + vs[1] / 16, vs[1] % 16 * 16 + vs[2] / 4, vs[2] % 4 * 64 + vs[3]] + rest)
  }

  function Decode(a: Alphabet, s: string): Option<seq<Byte>> {
    SextetsInRange(a, WithoutBreaks(s));
    match Sextets(a, WithoutBreaks(s))
    case None => None
    case Some(vs) => Bytes(vs)
  }

  /** The alphabet shares no character with the separators of the texts built from it. */
  predicate Plain(c: char) {
    c != '$' && c != ',' && c != '=' && c != '\r' && c != '\n'
  }

  predicate AllPlain(s: string) {
    forall i :: 0 <= i < |s| ==> Plain(s[i])
  }

  lemma {:induction false} EncodePlain(a: Alphabet, bs: seq<Byte>)
    ensures AllPlain(Encode(a, bs))
  {
    if |bs| >= 3 {
      EncodePlain(a, bs[3..]);
    }
  }

  lemma {:induction false} PlainHasNoBreaks(s: string)
    requires AllPlain(s)
    ensures WithoutBreaks(s) == s
  {
    if s != [] {
      PlainHasNoBreaks(s[1..]);
      assert s == [s[0]] + s[1..];
    }
  }

  /** Reading one more symbol in front. */
  lemma SextetsCons(a: Alphabet, v: nat, t: string, vs: seq<nat>)
    requires v < 64 && Sextets(a, t) == Some(vs)
    ensures Sextets(a, [Symbol(a, v)] + t) == Some([v] + vs)
  {
    SextetOfSymbol(a, v);
    assert ([Symbol(a, v)] + t)[1..] == t;
  }

  lemma SextetsTwo(a: Alphabet, p: nat, q: nat, t: string, vs: seq<nat>)
    requires p < 64 && q < 64 && Sextets(a, t) == Some(vs)
    ensures Sextets(a, [Symbol(a, p), Symbol(a, q)] + t) == Some([p, q] + vs)
  {
    SextetsCons(a, q, t, vs);
    SextetsCons(a, p, [Symbol(a, q)] + t, [q] + vs);
    assert [Symbol(a, p)] + ([Symbol(a, q)] + t) == [Symbol(a, p), Symbol(a, q)] + t;
    assert [p] + ([q] + vs) == [p, q] + vs;
  }

  lemma SextetsFour(a: Alphabet, p: nat, q: nat, r: nat, s: nat, t: string, vs: seq<nat>)
    requires p < 64 && q < 64 && r < 64 && s < 64 && Sextets(a, t) == Some(vs)
    ensures Sextets(a, [Symbol(a, p), Symbol(a, q), Symbol(a, r), Symbol(a, s)] + t) == Some([p, q, r, s] + vs)
  {
    var front, back := [Symbol(a, p), Symbol(a, q)], [Symbol(a, r), Symbol(a, s)];
    SextetsTwo(a, r, s, t, vs);
    SextetsTwo(a, p, q, back + t, [r, s] + vs);
    assert front + (back + t) == [Symbol(a, p), Symbol(a, q), Symbol(a, r), Symbol(a, s)] + t;
    assert [p, q] + ([r, s] + vs) == [p, q, r, s] + vs;
  }

  /** The sextets an encoding spells. */
  function Spelled(bs: seq<Byte>): (vs: seq<nat>)
    ensures InRange(vs)
  {
    if bs == [] then []
    else if |bs| == 1 then [bs[0] / 4, bs[0] % 4 * 16]
    else if |bs| == 2 then [bs[0] / 4, bs[0] % 4 * 16 + bs[1] / 16, bs[1] % 16 * 4]
    else [bs[0] / 4, bs[0] % 4 * 16 + bs[1] / 16, bs[1] % 16 * 4 + bs[2] / 64, bs[2] % 64] + Spelled(bs[3..])
  }

  lemma {:induction false} EncodeSpells(a: Alphabet, bs: seq<Byte>)
    ensures Sextets(a, Encode(a, bs)) == Some(Spelled(bs))
  {
    if bs == [] {
    } else if |bs| == 1 {
      var p, q := bs[0] / 4, bs[0] % 4 * 16;
      SextetsTwo(a, p, q, [], []);
      assert Encode(a, bs) == [Symbol(a, p), Symbol(a, q)] == [Symbol(a, p), Symbol(a, q)] + [];
      assert Spelled(bs) == [p, q] == [p, q] + [];
    } else if |bs| == 2 {
      var p, q, r := bs[0] / 4, bs[0] % 4 * 16 + bs[1] / 16, bs[1] % 16 * 4;
      SextetsCons(a, r, [], []);
      SextetsTwo(a, p, q, [Symbol(a, r)] + [], [r] + []);
      assert [Symbol(a, p), Symbol(a, q)] + ([Symbol(a, r)] + []) == Encode(a, bs);
      assert [p, q] + ([r] + []) == Spelled(bs);
    } else {
      EncodeSpells(a, bs[3..]);
      SextetsFour(a, bs[0] / 4, bs[0] % 4 * 16 + bs[1] / 16, bs[1] % 16 * 4 + bs[2] / 64, bs[2] % 64,
                  Encode(a, bs[3..]), Spelled(bs[3..]));
    }
  }

  lemma BytesFour(p: nat, q: nat, r: nat, s: nat, vs: seq<nat>, rest: seq<Byte>)
    requires p < 64 && q < 64 && r < 64 && s < 64 && InRange(vs) && Bytes(vs) == Some(rest)
    ensures InRange([p, q, r, s] + vs)
    ensures Bytes([p, q, r, s] + vs) == Some([p * 4 + q / 16, q % 16 * 16 + r / 4, r % 4 * 64 + s] + rest)
  {
    assert ([p, q, r, s] + vs)[4..] == vs;
  }

  lemma OneSpelled(x: Byte)
    ensures Bytes([x / 4, x % 4 * 16]) == Some([x])
  {
    TripleBack(x, 0, 0);
  }

  lemma TwoSpelled(x: Byte, y: Byte)
    ensures Bytes([x / 4, x % 4 * 16 + y / 16, y % 16 * 4]) == Some([x, y])
  {
    TripleBack(x, y, 0);
  }

  lemma TripleSpelled(x: Byte, y: Byte, z: Byte, vs: seq<nat>, rest: seq<Byte>)
    requires InRange(vs) && Bytes(vs) == Some(rest)
    ensures InRange([x / 4, x % 4 * 16 + y / 16, y % 16 * 4 + z / 64, z % 64] + vs)
    ensures Bytes([x / 4, x % 4 * 16 + y / 16, y % 16 * 4 + z / 64, z % 64] + vs) == Some([x, y, z] + rest)
  {
    BytesFour(x / 4, x % 4 * 16 + y / 16, y % 16 * 4 + z / 64, z % 64, vs, rest);
    TripleBack(x, y, z);
  }

  lemma {:induction false} BytesSpelled(bs: seq<Byte>)
    ensures Bytes(Spelled(bs)) == Some(bs)
  {
    if bs == [] {
    } else if |bs| == 1 {
      OneSpelled(bs[0]);
      assert bs == [bs[0]];
    } else if |bs| == 2 {
      TwoSpelled(bs[0], bs[1]);
      assert bs == [bs[0], bs[1]];
    } else {
      BytesSpelled(bs[3..]);
      TripleSpelled(bs[0], bs[1], bs[2], Spelled(bs[3..]), bs[3..]);
      assert bs == [bs[0], bs[1], bs[2]] + bs[3..];
    }
  }

  lemma TripleBack(x: Byte, y: Byte, z: Byte)
    ensures x / 4 * 4 + (x % 4 * 16 + y / 16) / 16 == x
    ensures (x % 4 * 16 + y / 16) % 16 * 16 + (y % 16 * 4 + z / 64) / 4 == y
    ensures (y % 16 * 4 + z / 64) % 4 * 64 + z % 64 == z
  {
  }

  /** Decoding undoes encoding, for every byte string. */
  lemma DecodeEncode(a: Alphabet, bs: seq<Byte>)
    ensures Decode(a, Encode(a, bs)) == Some(bs)
  {
    EncodePlain(a, bs);
    PlainHasNoBreaks(Encode(a, bs));
    EncodeSpells(a, bs);
    BytesSpelled(bs);
  }

  /** The vectors of section 10 of RFC 4648 without padding, and the two symbols its alphabets differ in. */
  lemma KnownTexts()
    ensures Encode(Std, [102]) == "Zg" && Encode(Std, [102, 111]) == "Zm8" && Encode(Std, [102, 111, 111]) == "Zm9v"
    ensures Encode(Std, [102, 111, 111, 98, 97, 114]) == "Zm9vYmFy"
    ensures Encode(Std, [251, 255]) == "+/8" && Encode(Url, [251, 255]) == "-_8"
  {
    assert [102, 111, 111][3..] == [] && [102, 111, 111, 98, 97, 114][3..] == [98, 97, 114] && [98, 97, 114][3..] == [];
  }
}
