/** Base64 (section 4 of RFC 4648) and the data URLs of section 3 of RFC 2397 built from it. */
module Base64 {
  import opened Wrappers
  import opened Sequences

  newtype byte = x: int | 0 <= x < 256
  newtype sextet = x: int | 0 <= x < 64

  function Character(s: sextet): char {
    var n := s as int;
    if n < 26 then ('A' as int + n) as char
    else if n < 52 then ('a' as int + n - 26) as char
    else if n < 62 then ('0' as int + n - 52) as char
    else if n == 62 then '+' else '/'
  }

  /** The decoder also accepts the URL-safe letters for 62 and 63. */
  function SextetOf(c: char): Option<sextet> {
    if 'A' <= c <= 'Z' then Some((c as int - 'A' as int) as sextet)
    else if 'a' <= c <= 'z' then Some((c as int - 'a' as int + 26) as sextet)
    else if '0' <= c <= '9' then Some((c as int - '0' as int + 52) as sextet)
    else if c == '+' || c == '-' then Some(62)
    else if c == '/' || c == '_' then Some(63)
    else None
  }

  function Split3(a: byte, b: byte, c: byte): seq<sextet> {
    [(a as int / 4) as sextet,
     (a as int % 4 * 16 + b as int / 16) as sextet,
     (b as int % 16 * 4 + c as int / 64) as sextet,
     (c as int % 64) as sextet]
  }

  function ToSextets(bytes: seq<byte>): seq<sextet> {
    if |bytes| == 0 then []
    else if |bytes| == 1 then Split3(bytes[0], 0, 0)[..2]
    else if |bytes| == 2 then Split3(bytes[0], bytes[1], 0)[..3]
    else Split3(bytes[0], bytes[1], bytes[2]) + ToSextets(bytes[3..])
  }

  function Join4(w: sextet, x: sextet, y: sextet, z: sextet): seq<byte> {
    [(w as int * 4 + x as int / 16) as byte,
     (x as int % 16 * 16 + y as int / 4) as byte,
     (y as int % 4 * 64 + z as int) as byte]
  }

  function FromSextets(s: seq<sextet>): seq<byte> {
    if |s| < 2 then []
    else if |s| == 2 then Join4(s[0], s[1], 0, 0)[..1]
    else if |s| == 3 then Join4(s[0], s[1], s[2], 0)[..2]
    else Join4(s[0], s[1], s[2], s[3]) + FromSextets(s[4..])
  }

  function Print(s: seq<sextet>): string {
    if s == [] then "" else [Character(s[0])] + Print(s[1..])
  }

  function SextetsOf(c: char): seq<sextet> {
    match SextetOf(c)
    case Some(s) => [s]
    case None => []
  }

  /** The sextets of a text; characters outside the alphabet are skipped. */
  function Scan(text: string): seq<sextet> {
    FlatMap(SextetsOf, text)
  }

  /** `buffer.toString('base64')` */
  function Encode(bytes: seq<byte>): string {
    Print(ToSextets(bytes)) + (if |bytes| % 3 == 1 then "==" else if |bytes| % 3 == 2 then "=" else "")
  }

  /** `Buffer.from(text, 'base64')` */
  function Decode(text: string): seq<byte> {
    FromSextets(Scan(text))
  }

  lemma SplitJoin(a: byte, b: byte, c: byte)
    ensures var s := Split3(a, b, c); Join4(s[0], s[1], s[2], s[3]) == [a, b, c]
  {
  }

  lemma {:induction false} SextetsReadBack(bytes: seq<byte>)
    ensures FromSextets(ToSextets(bytes)) == bytes
  {
    if |bytes| == 1 {
      SplitJoin(bytes[0], 0, 0);
    } else if |bytes| == 2 {
      SplitJoin(bytes[0], bytes[1], 0);
    } else if |bytes| > 2 {
      SplitJoin(bytes[0], bytes[1], bytes[2]);
      SextetsReadBack(bytes[3..]);
      assert ToSextets(bytes)[4..] == ToSextets(bytes[3..]);
    }
  }

  lemma CharacterReadsBack(s: sextet)
    ensures SextetOf(Character(s)) == Some(s) && Character(s) != ';'
  {
  }

  lemma {:induction false} ScanPrint(s: seq<sextet>)
    ensures Scan(Print(s)) == s
  {
    if s != [] {
      ScanPrint(s[1..]);
      CharacterReadsBack(s[0]);
      FlatMapCons(SextetsOf, Character(s[0]), Print(s[1..]));
    }
  }

  lemma {:induction false} NoSemicolon(s: seq<sextet>)
    ensures ';' !in Print(s)
  {
    if s != [] {
      CharacterReadsBack(s[0]);
      NoSemicolon(s[1..]);
    }
  }

  function DecodedLength(sextets: nat): nat {
    sextets / 4 * 3 + if sextets % 4 < 2 then 0 else sextets % 4 - 1
  }

  lemma {:induction false} FromSextetsLength(s: seq<sextet>)
    ensures |FromSextets(s)| == DecodedLength(|s|)
  {
    if |s| > 3 {
      FromSextetsLength(s[4..]);
    }
  }

  lemma ScanPadding()
    ensures Scan("") == [] && Scan("=") == [] && Scan("==") == []
  {
    assert "="[1..] == "" && "=="[1..] == "=";
  }

  /** Encoded bytes decode to themselves. */
  lemma DecodeEncode(bytes: seq<byte>)
    ensures Decode(Encode(bytes)) == bytes
    ensures ';' !in Encode(bytes)
  {
    var pad := if |bytes| % 3 == 1 then "==" else if |bytes| % 3 == 2 then "=" else "";
    ScanPadding();
    FlatMapConcat(SextetsOf, Print(ToSextets(bytes)), pad);
    ScanPrint(ToSextets(bytes));
    NoSemicolon(ToSextets(bytes));
    assert ToSextets(bytes) + [] == ToSextets(bytes);
    SextetsReadBack(bytes);
  }

  lemma {:induction false} EncodeEmpty(bytes: seq<byte>)
    ensures Encode(bytes) == "" <==> bytes == []
  {
    if bytes != [] {
      assert |ToSextets(bytes)| > 0;
    }
  }

  /** Three bytes and their four sextets are the same 24-bit number, the most significant first. */
  lemma GroupValue(a: byte, b: byte, c: byte)
    ensures var s := Split3(a, b, c);
      |s| == 4 &&
      ((s[0] as int * 64 + s[1] as int) * 64 + s[2] as int) * 64 + s[3] as int == (a as int * 256 + b as int) * 256 + c as int
  {
  }

  /** The alphabet: capitals, small letters, digits, plus, slash. */
  lemma Alphabet(s: sextet)
    ensures var n, c := s as int, Character(s);
      (n < 26 ==> c == "ABCDEFGHIJKLMNOPQRSTUVWXYZ"[n]) &&
      (26 <= n < 52 ==> c == "abcdefghijklmnopqrstuvwxyz"[n - 26]) &&
      (52 <= n < 62 ==> c == "0123456789"[n - 52]) && (n == 62 ==> c == '+') && (n == 63 ==> c == '/')
  {
  }
}
