/** The text form in which the bridge programs put a recipient's key into an event, and how the relayer
    reads it back. Texts are UTF-8 bytes, as a Rust string holds them. */
module HexCodec {
  import opened Numbers

  type byte = n: int | 0 <= n < 256

  /** A 32-byte account address. */
  type Key = k: seq<byte> | |k| == 32 witness seq(32, _ => 0)

  /** The ASCII code of a digit, lower case. */
  function Digit(d: nat): byte
    requires d < 16
  {
    if d < 10 then 48 + d else 87 + d
  }

  /** A byte with `{:02x}`: two lower-case digits. */
  function ByteText(b: byte): seq<byte> {
    [Digit(b / 16), Digit(b % 16)]
  }

  function Encoded(bytes: seq<byte>): seq<byte> {
    if bytes == [] then [] else Encoded(bytes[..|bytes| - 1]) + ByteText(bytes[|bytes| - 1])
  }

  method HexEncode(bytes: seq<byte>) returns (s: seq<byte>)
    ensures s == Encoded(bytes)
  {
    s := [];
    for i := 0 to |bytes|
      invariant s == Encoded(bytes[..i])
    {
      assert bytes[..i + 1][..i] == bytes[..i];
      s := s + ByteText(bytes[i]);
    }
    assert bytes[..|bytes|] == bytes;
  }

  function DigitValue(c: byte): Option<nat> {
    if 48 <= c <= 57 then Some(c - 48)
    else if 97 <= c <= 102 then Some(c - 87)
    else if 65 <= c <= 70 then Some(c - 55)
    else None
  }

  const PLUS: byte := 43

  /** `u8::from_str_radix` on two characters in base 16: two digits of either case, or a plus sign and one. */
  function ParsePair(a: byte, b: byte): Option<byte> {
    var low := DigitValue(b);
    if low.None? then None
    else if a == PLUS then Some(low.value)
    else if DigitValue(a).None? then None
    else Some(16 * DigitValue(a).value + low.value)
  }

  /** A string may be cut before byte `i`: not in the middle of a character. */
  predicate Boundary(text: seq<byte>, i: nat) {
    i >= |text| || text[i] < 128 || text[i] >= 192
  }

  /** Cutting a string inside a character stops the whole program. */
  datatype Fault = Unreadable | Panic

  /** The first `n` pairs. */
  function ReadPairs(text: seq<byte>, n: nat): (r: Result<seq<byte>, Fault>)
    requires |text| == 64 && n <= 32
    ensures r.Ok? ==> |r.value| == n
  {
    if n == 0 then Ok([]) else
      var front :- ReadPairs(text, n - 1);
      var pair := ParsePair(text[2 * n - 2], text[2 * n - 1]);
      if !Boundary(text, 2 * n) then Err(Panic)
      else if pair.None? then Err(Unreadable)
      else Ok(front + [pair.value])
  }

  function Decoded(text: seq<byte>): Result<Key, Fault> {
    if |text| != 64 then Err(Unreadable) else
      var bytes :- ReadPairs(text, 32);
      Ok(bytes)
  }

  /** Fills a 32-byte array pair by pair, giving up at the first pair that is not a number. */
  method HexToPubkey(text: seq<byte>) returns (r: Result<Key, Fault>)
    ensures r == Decoded(text)
  {
    if |text| != 64 { return Err(Unreadable); }
    var bytes := new byte[32](_ => 0);
    for i := 0 to 32
      invariant ReadPairs(text, i) == Ok(bytes[..i])
    {
      if !Boundary(text, 2 * i + 2) {
        FaultStays(text, i + 1, 32);
        return Err(Panic);
      }
      var parsed := ParsePair(text[2 * i], text[2 * i + 1]);
      if parsed.None? {
        FaultStays(text, i + 1, 32);
        return Err(Unreadable);
      }
      bytes[i] := parsed.value;
      assert bytes[..i + 1] == bytes[..i] + [parsed.value];
    }
    r := Ok(bytes[..]);
    assert bytes[..] == bytes[..32];
  }

  lemma {:induction false} FaultStays(text: seq<byte>, n: nat, m: nat)
    requires |text| == 64 && n <= m <= 32 && ReadPairs(text, n).Err?
    ensures ReadPairs(text, m) == ReadPairs(text, n)
  {
    if n < m {
      FaultStays(text, n, m - 1);
    }
  }

  // ---------- What is read ----------

  /** Every pair of `text` is a number, and these are the numbers. */
  predicate Reads(text: seq<byte>, bytes: seq<byte>) {
    && |text| == 64 && |bytes| == 32
    && forall i :: 0 <= i < 32 ==> ParsePair(text[2 * i], text[2 * i + 1]) == Some(bytes[i])
  }

  /** A text yields a key exactly when it reads as that key. */
  lemma DecodedExactlyWhen(text: seq<byte>, k: Key)
    ensures Decoded(text) == Ok(k) <==> Reads(text, k)
  {
    if |text| == 64 {
      if ReadPairs(text, 32).Ok? {
        PairsAgree(text, 32);
        if Reads(text, k) {
          assert ReadPairs(text, 32).value == k;
        }
      }
      if Reads(text, k) {
        AllPairsRead(text, k, 32);
      }
    }
  }

  lemma {:induction false} PairsAgree(text: seq<byte>, n: nat)
    requires |text| == 64 && n <= 32 && ReadPairs(text, n).Ok?
    ensures forall i | 0 <= i < n :: ParsePair(text[2 * i], text[2 * i + 1]) == Some(ReadPairs(text, n).value[i])
  {
    if n > 0 {
      PairsAgree(text, n - 1);
    }
  }

  lemma {:induction false} AllPairsRead(text: seq<byte>, bytes: seq<byte>, n: nat)
    requires Reads(text, bytes) && n <= 32
    ensures ReadPairs(text, n).Ok?
  {
    if n > 0 {
      AllPairsRead(text, bytes, n - 1);
      assert n < 32 ==> ParsePair(text[2 * n], text[2 * n + 1]) == Some(bytes[n]);
    }
  }

  /** Reading stops the program exactly when a character straddles the end of some pair and everything
      before that pair is a number. */
  lemma PanicsExactlyWhen(text: seq<byte>)
    ensures Decoded(text) == Err(Panic)
            <==> |text| == 64 && exists n: nat | 1 <= n <= 32 :: StraddledAt(text, n)
  {
    if |text| == 64 {
      PanicPoint(text, 32);
      if n: nat :| 1 <= n <= 32 && StraddledAt(text, n) {
        StraddledPanics(text, n, n);
        FaultStays(text, n, 32);
      }
    }
  }

  predicate StraddledAt(text: seq<byte>, n: nat)
    requires |text| == 64 && 1 <= n <= 32
  {
    !Boundary(text, 2 * n) && forall i :: 0 <= i < n - 1 ==> ParsePair(text[2 * i], text[2 * i + 1]).Some?
  }

  lemma {:induction false} PanicPoint(text: seq<byte>, n: nat)
    requires |text| == 64 && n <= 32
    ensures ReadPairs(text, n) == Err(Panic) ==> exists m: nat | 1 <= m <= n :: StraddledAt(text, m)
  {
    if n > 0 {
      PanicPoint(text, n - 1);
      if ReadPairs(text, n - 1).Ok? {
        PairsAgree(text, n - 1);
        assert !Boundary(text, 2 * n) ==> StraddledAt(text, n);
      }
    }
  }

  lemma {:induction false} StraddledPanics(text: seq<byte>, n: nat, m: nat)
    requires |text| == 64 && 1 <= n <= 32 && m <= n && StraddledAt(text, n)
    ensures if m == n then ReadPairs(text, m) == Err(Panic) else ReadPairs(text, m) != Err(Unreadable)
  {
    if m > 0 {
      StraddledPanics(text, n, m - 1);
      assert m < n ==> ParsePair(text[2 * (m - 1)], text[2 * (m - 1) + 1]).Some?;
      var front := ReadPairs(text, m - 1);
      assert front.Err? ==> front.error == Panic && ReadPairs(text, m) == Err(Panic);
    }
  }

  // ---------- The characters ----------

  /** The digits written are lower-case ASCII; those read are of either case. */
  lemma DigitsAreAscii(d: nat)
    requires d < 16
    ensures Digit(d) == "0123456789abcdef"[d] as int
    ensures forall c: byte :: DigitValue(c) == Some(d)
                              <==> c == "0123456789abcdef"[d] as int || c == "0123456789ABCDEF"[d] as int
  {
    assert "0123456789abcdef" == "0123456789" + "abcdef" && "0123456789ABCDEF" == "0123456789" + "ABCDEF";
  }

  /** What a pair of characters reads as: two digits, or one behind a plus sign. */
  lemma PairExactlyWhen(a: byte, b: byte, v: byte)
    ensures ParsePair(a, b) == Some(v)
            <==> && DigitValue(b) == Some(v % 16)
                 && if v < 16 then a == '+' as int || DigitValue(a) == Some(0) else DigitValue(a) == Some(v / 16)
  {
  }

  /** A string may be cut anywhere but before a continuation byte, whose two high bits are 10. */
  lemma CutsAreBetweenCharacters(text: seq<byte>, i: nat)
    ensures Boundary(text, i) <==> i < |text| ==> text[i] / 64 != 2
  {
  }

  // ---------- Round trip ----------

  /** Where the digits of each byte stand. */
  lemma {:induction false} EncodedAt(bytes: seq<byte>, i: nat)
    requires i < |bytes|
    ensures |Encoded(bytes)| == 2 * |bytes|
    ensures Encoded(bytes)[2 * i] == Digit(bytes[i] / 16) && Encoded(bytes)[2 * i + 1] == Digit(bytes[i] % 16)
  {
    var n := |bytes| - 1;
    var front := bytes[..n];
    if n == 0 {
      assert Encoded(front) == [];
    } else if i < n {
      EncodedAt(front, i);
    } else {
      EncodedAt(front, 0);
    }
  }

  lemma PairRoundTrip(b: byte)
    ensures ParsePair(Digit(b / 16), Digit(b % 16)) == Some(b)
  {
  }

  /** Every key survives the trip through the event text. */
  lemma RoundTrip(k: Key)
    ensures Decoded(Encoded(k)) == Ok(k)
  {
    EncodedAt(k, 0);
    forall i | 0 <= i < 32
      ensures ParsePair(Encoded(k)[2 * i], Encoded(k)[2 * i + 1]) == Some(k[i])
    {
      EncodedAt(k, i);
      PairRoundTrip(k[i]);
    }
    DecodedExactlyWhen(Encoded(k), k);
  }

  /** Different keys have different texts. */
  lemma EncodingIsInjective(a: Key, b: Key)
    requires Encoded(a) == Encoded(b)
    ensures a == b
  {
    RoundTrip(a);
    RoundTrip(b);
  }

  /** The reader also accepts texts the writer never produces. */
  lemma ReaderIsLenient(k: Key)
    requires k[0] == 0xF
    ensures var text := [PLUS, 70] + Encoded(k)[2..];
            |Encoded(k)| == 64 && text != Encoded(k) && Decoded(text) == Ok(k)
  {
    EncodedAt(k, 0);
    var text := [PLUS, 70] + Encoded(k)[2..];
    forall i | 0 <= i < 32
      ensures ParsePair(text[2 * i], text[2 * i + 1]) == Some(k[i])
    {
      EncodedAt(k, i);
      PairRoundTrip(k[i]);
    }
    DecodedExactlyWhen(text, k);
  }
}
