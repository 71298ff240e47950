/** The PHC strings of internal/api/clientstore.go: Argon2id costs, salt and hash in one text. */
module Phc {
  import opened Outcomes
  import opened Text
  import opened Base64

  const VERSION := 19
  const TWO_32 := 0x1_0000_0000

  const ARGON2_MEMORY := 64 * 1024
  const ARGON2_TIME := 1
  const ARGON2_THREADS := 4

  datatype Parsed = Parsed(memory: nat, time: nat, threads: nat, salt: seq<Byte>, hash: seq<Byte>)

  /** fmt's %d. */
  function Signed(n: int): (s: string) {
    if n < 0 then "-" + Decimal(-n) else Decimal(n)
  }

  function Param(name: string, n: int): string {
    name + "=" + Signed(n)
  }

  function Fields(memory: int, time: int, threads: int, salt: seq<Byte>, hash: seq<Byte>): seq<string> {
    ["", "argon2id", Param("v", VERSION),
     Join([Param("m", memory), Param("t", time), Param("p", threads)], ','),
     Encode(Std, salt), Encode(Std, hash)]
  }

  function EncodePHC(memory: int, time: int, threads: int, salt: seq<Byte>, hash: seq<Byte>): string {
    Join(Fields(memory, time, threads, salt, hash), '$')
  }

  /** strconv.ParseUint(digits, 10, 32): no sign, at least one digit, below 2^32. */
  function ParseUint32(s: string): Option<nat> {
    if s == [] || !AllDigits(s) || Value(s) >= TWO_32 then None else Some(Value(s))
  }

  /** The text after the first '=' of a field of the wanted name. */
  function ParseParam(field: string, name: string): Option<nat> {
    var parts := Split(field, '=');
    if |parts| < 2 || parts[0] != name then None else ParseUint32(Join(parts[1..], '='))
  }

  /** `threads` is read as 32 bits and then cut to 8. */
  function ParsePHC(encoded: string): Option<Parsed> {
    var parts := Split(encoded, '$');
    if |parts| != 6 || parts[0] != "" || parts[1] != "argon2id" then None
    else if ParseParam(parts[2], "v") != Some(VERSION) then None
    else
      var params := Split(parts[3], ',');
      if |params| != 3 then None
      else
        var m, t, p := ParseParam(params[0], "m"), ParseParam(params[1], "t"), ParseParam(params[2], "p");
        var salt, hash := Decode(Std, parts[4]), Decode(Std, parts[5]);
        if m.None? || t.None? || p.None? || salt.None? || hash.None? then None
        else Some(Parsed(m.value, t.value, p.value % 256, salt.value, hash.value))
  }

  predicate NeedsRehash(encoded: string) {
    match ParsePHC(encoded)
    case None => false
    case Some(p) => p.memory != ARGON2_MEMORY || p.time != ARGON2_TIME || p.threads != ARGON2_THREADS
  }

  /** Numerals hold neither separator. */
  lemma SignedPlain(n: int)
    ensures '=' !in Signed(n) && ',' !in Signed(n) && '$' !in Signed(n)
  {
    var numeral := Decimal(if n < 0 then -n else n);
    assert forall i :: 0 <= i < |numeral| ==> IsDigit(numeral[i]);
  }

  lemma SignedIsUint32(n: int)
    ensures ParseUint32(Signed(n)) == if 0 <= n < TWO_32 then Some(n as nat) else None
  {
    if n < 0 {
      assert Signed(n)[0] == '-';
    } else {
      DecimalValue(n);
    }
  }

  lemma ParamBack(name: string, n: int)
    requires '=' !in name
    ensures ParseParam(Param(name, n), name) == if 0 <= n < TWO_32 then Some(n as nat) else None
  {
    SignedPlain(n);
    SplitFirst(name, Signed(n), '=');
    SplitPlain(Signed(n), '=');
    SignedIsUint32(n);
    assert [name, Signed(n)][1..] == [Signed(n)];
    assert Split(Param(name, n), '=') == [name, Signed(n)];
  }

  lemma PlainSymbols(bs: seq<Byte>)
    ensures '$' !in Encode(Std, bs)
  {
    EncodePlain(Std, bs);
  }

  lemma FieldsBack(memory: int, time: int, threads: int, salt: seq<Byte>, hash: seq<Byte>)
    ensures Split(EncodePHC(memory, time, threads, salt, hash), '$') == Fields(memory, time, threads, salt, hash)
  {
    var fields := Fields(memory, time, threads, salt, hash);
    SignedPlain(VERSION);
    SignedPlain(memory);
    SignedPlain(time);
    SignedPlain(threads);
    PlainSymbols(salt);
    PlainSymbols(hash);
    var costs := [Param("m", memory), Param("t", time), Param("p", threads)];
    JoinAvoids(costs, ',', '$');
    forall f | f in fields
      ensures '$' !in f
    {
      var i :| 0 <= i < |fields| && fields[i] == f;
      assert i == 0 || i == 1 || i == 2 || i == 3 || i == 4 || i == 5;
    }
    SplitJoin(fields, '$');
  }

  lemma {:induction false} JoinAvoids(parts: seq<string>, sep: char, c: char)
    requires parts != [] && sep != c && forall p :: p in parts ==> c !in p
    ensures c !in Join(parts, sep)
  {
    assert parts[0] in parts;
    if |parts| > 1 {
      assert forall p :: p in parts[1..] ==> p in parts;
      JoinAvoids(parts[1..], sep, c);
    }
  }

  lemma CostsBack(memory: int, time: int, threads: int)
    ensures Split(Join([Param("m", memory), Param("t", time), Param("p", threads)], ','), ',')
         == [Param("m", memory), Param("t", time), Param("p", threads)]
  {
    SignedPlain(memory);
    SignedPlain(time);
    SignedPlain(threads);
    SplitJoin([Param("m", memory), Param("t", time), Param("p", threads)], ',');
  }

  predicate InWords(memory: int, time: int, threads: int) {
    0 <= memory < TWO_32 && 0 <= time < TWO_32 && 0 <= threads < TWO_32
  }

  /** What reading back a written string gives, for any costs at all. */
  lemma ParseEncodePHC(memory: int, time: int, threads: int, salt: seq<Byte>, hash: seq<Byte>)
    ensures ParsePHC(EncodePHC(memory, time, threads, salt, hash))
         == if InWords(memory, time, threads) then Some(Parsed(memory, time, threads % 256, salt, hash)) else None
  {
    FieldsBack(memory, time, threads, salt, hash);
    CostsBack(memory, time, threads);
    ParamBack("v", VERSION);
    ParamBack("m", memory);
    ParamBack("t", time);
    ParamBack("p", threads);
    DecodeEncode(Std, salt);
    DecodeEncode(Std, hash);
  }

  predicate ReadsBackAs(r: Option<Parsed>, memory: int, time: int, threads: int, salt: seq<Byte>, hash: seq<Byte>) {
    r.Some? && r.value.memory == memory && r.value.time == time && r.value.threads == threads && r.value.salt == salt
      && r.value.hash == hash
  }

  /** The five values come back if and only if memory and time fit 32 bits and threads fits 8. */
  lemma RoundTrip(memory: int, time: int, threads: int, salt: seq<Byte>, hash: seq<Byte>)
    ensures ReadsBackAs(ParsePHC(EncodePHC(memory, time, threads, salt, hash)), memory, time, threads, salt, hash)
       <==> 0 <= memory < TWO_32 && 0 <= time < TWO_32 && 0 <= threads < 256
  {
    ParseEncodePHC(memory, time, threads, salt, hash);
    WhenReadBack(ParsePHC(EncodePHC(memory, time, threads, salt, hash)), memory, time, threads, salt, hash);
  }

  lemma WhenReadBack(r: Option<Parsed>, memory: int, time: int, threads: int, salt: seq<Byte>, hash: seq<Byte>)
    requires r == if InWords(memory, time, threads) then Some(Parsed(memory, time, threads % 256, salt, hash)) else None
    ensures ReadsBackAs(r, memory, time, threads, salt, hash)
       <==> 0 <= memory < TWO_32 && 0 <= time < TWO_32 && 0 <= threads < 256
  {
  }

  /**
   A parseable hash is due for rehashing exactly when its costs, threads taken modulo 256,
   are not the current ones.
   */
  lemma RehashWhenCostsDiffer(memory: int, time: int, threads: int, salt: seq<Byte>, hash: seq<Byte>)
    ensures NeedsRehash(EncodePHC(memory, time, threads, salt, hash))
       <==> InWords(memory, time, threads)
            && !(memory == ARGON2_MEMORY && time == ARGON2_TIME && threads % 256 == ARGON2_THREADS)
  {
    ParseEncodePHC(memory, time, threads, salt, hash);
  }
}
