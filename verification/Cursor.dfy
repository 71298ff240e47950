/** The opaque page cursor of internal/api/cursor.go. */
module Cursor {
  import opened Outcomes
  import opened Text
  import opened Base64

  const PREFIX := "v1:"
  const MAX_INT := 0x7fff_ffff_ffff_ffff

  datatype CursorError = NotBase64 | NoPrefix | NotANumber | Negative

  function ToByte(c: char): Byte
    requires c as int < 256
  {
    c as int
  }

  predicate OneByteEach(s: string) {
    forall i :: 0 <= i < |s| ==> s[i] as int < 256
  }

  /** A string's bytes; every character written here is ASCII. */
  function ToBytes(s: string): (bs: seq<Byte>)
    requires OneByteEach(s)
    ensures |bs| == |s|
  {
    seq(|s|, i requires 0 <= i < |s| => ToByte(s[i]))
  }

  function FromBytes(bs: seq<Byte>): string {
    seq(|bs|, i requires 0 <= i < |bs| => bs[i] as char)
  }

  /** strconv.Atoi: an optional sign, then digits, within 64 signed bits. */
  function Atoi(s: string): Option<int> {
    var signed := s != [] && (s[0] == '+' || s[0] == '-');
    var digits := if signed then s[1..] else s;
    if digits == [] || !AllDigits(digits) then None
    else
      var v: int := Value(digits);
      var n := if s[0] == '-' then -v else v;
      if -MAX_INT - 1 <= n <= MAX_INT then Some(n) else None
  }

  function EncodeCursor(offset: nat): string {
    Encode(Url, ToBytes(PREFIX + Decimal(offset)))
  }

  function DecodeCursor(cursor: string): Result<nat, CursorError> {
    if cursor == "" then Ok(0)
    else
      match Decode(Url, cursor)
      case None => Err(NotBase64)
      case Some(raw) =>
        var s := FromBytes(raw);
        if !(PREFIX <= s) then Err(NoPrefix)
        else
          match Atoi(s[|PREFIX|..])
          case None => Err(NotANumber)
          case Some(n) => if n < 0 then Err(Negative) else Ok(n)
  }

  lemma BytesAndBack(s: string)
    requires OneByteEach(s)
    ensures FromBytes(ToBytes(s)) == s
  {
  }

  lemma AtoiDecimal(n: nat)
    ensures Atoi(Decimal(n)) == if n <= MAX_INT then Some(n) else None
  {
    DecimalValue(n);
    assert IsDigit(Decimal(n)[0]);
  }

  lemma CursorText(offset: nat)
    ensures var s := PREFIX + Decimal(offset);
            OneByteEach(s) && EncodeCursor(offset) != "" && Decode(Url, EncodeCursor(offset)) == Some(ToBytes(s))
  {
    var s := PREFIX + Decimal(offset);
    assert |ToBytes(s)| >= 3;
    DecodeEncode(Url, ToBytes(s));
  }

  lemma DecodeCursorOf(cursor: string, s: string)
    requires OneByteEach(s) && cursor != "" && Decode(Url, cursor) == Some(ToBytes(s)) && PREFIX <= s
    ensures var n := Atoi(s[|PREFIX|..]);
            DecodeCursor(cursor) == if n.None? then Err(NotANumber) else if n.value < 0 then Err(Negative)
              else Ok(n.value)
  {
    BytesAndBack(s);
  }

  /** A cursor leads back to its offset, for every offset Go's int can hold and for no larger one. */
  lemma CursorRoundTrip(offset: nat)
    ensures DecodeCursor(EncodeCursor(offset)) == Ok(offset) <==> offset <= 0x7fff_ffff_ffff_ffff
  {
    var s := PREFIX + Decimal(offset);
    CursorText(offset);
    DecodeCursorOf(EncodeCursor(offset), s);
    assert s[|PREFIX|..] == Decimal(offset);
    AtoiDecimal(offset);
  }

  lemma SecondPageBytes()
    ensures OneByteEach(PREFIX + Decimal(20)) && ToBytes(PREFIX + Decimal(20)) == [118, 49, 58, 50, 48]
  {
    assert PREFIX + Decimal(20) == "v1:20";
  }

  lemma SecondPageText(bs: seq<Byte>)
    requires bs == [118, 49, 58, 50, 48]
    ensures Encode(Url, bs) == "djE6MjA"
  {
    var rest: seq<Byte> := [50, 48];
    assert bs[3..] == rest;
    assert Encode(Url, rest) == "MjA";
    assert Encode(Url, bs) == "djE6" + "MjA";
  }

  /** The cursor to the second page of twenty: "v1:20" in base64url. */
  lemma SecondPage()
    ensures EncodeCursor(20) == "djE6MjA"
  {
    SecondPageBytes();
    SecondPageText(ToBytes(PREFIX + Decimal(20)));
  }
}
