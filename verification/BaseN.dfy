/** Byte strings as positional numbers: big-endian bytes in, digits of any alphabet out, the lowest digit first. */
module BaseN {
  import opened Wrappers

  datatype Result<T> = Ok(value: T) | Err(character: char)

  /** The digits, the small letters, the capitals. */
  function Base62Char(i: nat): char
    requires i < 62
  {
    if i < 10 then '0' + i as char else if i < 36 then 'a' + (i - 10) as char else 'A' + (i - 36) as char
  }

  const ALPHABET_BASE62: string := seq(62, i requires 0 <= i < 62 => Base62Char(i))

  predicate Distinct(alphabet: string) {
    forall i, j :: 0 <= i < j < |alphabet| ==> alphabet[i] != alphabet[j]
  }

  // ---------------------------------------------------------------- numbers as bytes and as text

  function Pow(base: nat, n: nat): nat {
    if n == 0 then 1 else base * Pow(base, n - 1)
  }

  /** Big-endian, of the first n bytes. */
  function FromBytes(data: seq<byte>, n: nat): nat
    requires n <= |data|
  {
    if n == 0 then 0 else FromBytes(data, n - 1) * 256 + data[n - 1]
  }

  /** Big-endian, without leading zero bytes. */
  function ToBytes(value: nat): seq<byte> {
    if value == 0 then [] else ToBytes(value / 256) + [value % 256]
  }

  lemma {:induction false} TimesAtLeast(base: nat, d: int)
    ensures d >= 1 ==> base * d >= base
    ensures d >= 0 && base >= 2 ==> base * d >= 2 * d
  {
    if d >= 1 {
      assert base * d == base * (d - 1) + base;
    }
    assert base * d == (base - 2) * d + 2 * d;
  }

  function Quotient(value: nat, base: nat): (q: nat)
    requires base >= 2
    ensures value == base * q + value % base
    ensures value > 0 ==> q < value
  {
    TimesAtLeast(base, value / base);
    value / base
  }

  /** Lowest digit first, without trailing zero digits. */
  function Spelled(alphabet: string, value: nat): string
    requires |alphabet| >= 2
  {
    if value == 0 then "" else [alphabet[value % |alphabet|]] + Spelled(alphabet, Quotient(value, |alphabet|))
  }

  /** The position of each character; of the last one when a character is repeated. */
  function RuneToValue(alphabet: string, n: nat): map<char, nat>
    requires n <= |alphabet|
  {
    if n == 0 then map[] else RuneToValue(alphabet, n - 1)[alphabet[n - 1] := n - 1]
  }

  function Weight(base: nat, runes: map<char, nat>, text: string, n: nat): nat
    requires n <= |text| && forall i :: 0 <= i < n ==> text[i] in runes
  {
    if n == 0 then 0 else Weight(base, runes, text, n - 1) + runes[text[n - 1]] * Pow(base, n - 1)
  }

  predicate Native(runes: map<char, nat>, text: string) {
    forall i :: 0 <= i < |text| ==> text[i] in runes
  }

  // ---------------------------------------------------------------- the encoder and the decoder

  method Encode(alphabet: string, data: seq<byte>) returns (text: string)
    requires |alphabet| >= 2
    ensures text == Spelled(alphabet, FromBytes(data, |data|))
  {
    hide FromBytes;
    var value: nat := FromBytes(data, |data|);
    text := [];
    while value != 0
      invariant text + Spelled(alphabet, value) == Spelled(alphabet, FromBytes(data, |data|))
      decreases value
    {
      var remainder := value % |alphabet|;
      SpelledStep(alphabet, text, value);
      value := Quotient(value, |alphabet|);
      text := text + [alphabet[remainder]];
    }
  }

  lemma {:induction false} SpelledStep(alphabet: string, text: string, value: nat)
    requires |alphabet| >= 2 && value > 0
    ensures Quotient(value, |alphabet|) < value
    ensures text + Spelled(alphabet, value) ==
            (text + [alphabet[value % |alphabet|]]) + Spelled(alphabet, Quotient(value, |alphabet|))
  {
  }

  /** Fails at the first character that is not in the alphabet. */
  method Decode(alphabet: string, text: string) returns (result: Result<seq<byte>>)
    ensures result.Ok? <==> Native(RuneToValue(alphabet, |alphabet|), text)
    ensures result.Ok? ==>
              result.value == ToBytes(Weight(|alphabet|, RuneToValue(alphabet, |alphabet|), text, |text|))
    ensures result.Err? ==>
              exists k :: 0 <= k < |text| && text[k] == result.character
                          && text[k] !in RuneToValue(alphabet, |alphabet|)
                          && Native(RuneToValue(alphabet, |alphabet|), text[..k])
  {
    var runes: map<char, nat> := map[];
    for i := 0 to |alphabet|
      invariant runes == RuneToValue(alphabet, i)
    {
      runes := runes[alphabet[i] := i];
    }
    hide Pow, ToBytes, RuneToValue;
    var value: nat := 0;
    for i := 0 to |text|
      invariant forall j :: 0 <= j < i ==> text[j] in runes
      invariant value == Weight(|alphabet|, runes, text, i)
    {
      if text[i] !in runes {
        return Err(text[i]);
      }
      value := value + runes[text[i]] * Pow(|alphabet|, i);
    }
    result := Ok(ToBytes(value));
  }

  // ---------------------------------------------------------------- arithmetic

  lemma {:induction false} NoMoreTimes(base: nat, q: nat, r: nat, q': nat, r': nat)
    requires r < base && r' < base && base * q + r == base * q' + r'
    ensures q <= q'
  {
    TimesAtLeast(base, q - q');
    assert base * (q - q') == base * q - base * q';
  }

  lemma {:induction false} DivisionIsUnique(base: nat, q: nat, r: nat)
    requires r < base
    ensures (base * q + r) / base == q && (base * q + r) % base == r
  {
    var n := base * q + r;
    var d: nat, m: nat := n / base, n % base;
    NoMoreTimes(base, q, r, d, m);
    NoMoreTimes(base, d, m, q, r);
  }

  /** Comparing numbers by their leading part. */
  lemma {:induction false} CompareQuotients(base: nat, q: nat, r: nat, p: nat)
    requires r < base
    ensures base * q + r < base * p <==> q < p
  {
    TimesAtLeast(base, p - q);
    TimesAtLeast(base, q - p + 1);
    assert base * (p - q) == base * p - base * q;
    assert base * (q - p + 1) == base * q - base * p + base;
  }

  lemma {:induction false} PowStep(base: nat, n: nat)
    ensures Pow(base, n + 1) == base * Pow(base, n)
  {
  }

  lemma {:induction false} PowPositive(base: nat, n: nat)
    requires base > 0
    ensures Pow(base, n) > 0
  {
    if n > 0 {
      PowPositive(base, n - 1);
    }
  }

  // ---------------------------------------------------------------- text and back

  /** The first character counts once, the others count base times what they count alone. */
  lemma {:induction false} WeightCons(base: nat, runes: map<char, nat>, text: string, n: nat)
    requires 0 < n <= |text| && Native(runes, text)
    ensures Weight(base, runes, text, n) == runes[text[0]] + base * Weight(base, runes, text[1..], n - 1)
  {
    if n > 1 {
      WeightCons(base, runes, text, n - 1);
      var v, p, w := runes[text[n - 1]], Pow(base, n - 2), Weight(base, runes, text[1..], n - 2);
      PowStep(base, n - 2);
      assert base * (w + v * p) == base * w + v * (base * p);
    } else {
      assert Weight(base, runes, text, 0) == 0;
    }
  }

  lemma {:induction false} RunesOfDistinct(alphabet: string, n: nat)
    requires Distinct(alphabet) && n <= |alphabet|
    ensures forall i :: 0 <= i < n ==>
              alphabet[i] in RuneToValue(alphabet, n) && RuneToValue(alphabet, n)[alphabet[i]] == i
    ensures forall c :: c in RuneToValue(alphabet, n) ==>
              RuneToValue(alphabet, n)[c] < n && alphabet[RuneToValue(alphabet, n)[c]] == c
  {
    if n > 0 {
      RunesOfDistinct(alphabet, n - 1);
    }
  }

  /** For any alphabet, a character counts as its last position. */
  lemma {:induction false} RuneToValueExact(alphabet: string, n: nat)
    requires n <= |alphabet|
    ensures forall c :: c in RuneToValue(alphabet, n) <==> exists i :: 0 <= i < n && alphabet[i] == c
    ensures forall c :: c in RuneToValue(alphabet, n) ==>
              var i := RuneToValue(alphabet, n)[c];
              i < n && alphabet[i] == c && forall j :: i < j < n ==> alphabet[j] != c
  {
    if n > 0 {
      RuneToValueExact(alphabet, n - 1);
    }
  }

  /** The number that these digits stand for, the lowest one first. */
  function Horner(base: nat, digits: seq<nat>): nat {
    if |digits| == 0 then 0 else digits[0] + base * Horner(base, digits[1..])
  }

  /** For any alphabet, the text is that of the digits of the number, without a zero at the end. */
  lemma {:induction false} SpelledExact(alphabet: string, value: nat) returns (digits: seq<nat>)
    requires |alphabet| >= 2
    ensures Horner(|alphabet|, digits) == value && |digits| == |Spelled(alphabet, value)|
    ensures forall i :: 0 <= i < |digits| ==>
              digits[i] < |alphabet| && Spelled(alphabet, value)[i] == alphabet[digits[i]]
    ensures |digits| > 0 ==> digits[|digits| - 1] > 0
    decreases value
  {
    if value == 0 {
      digits := [];
    } else {
      var q := Quotient(value, |alphabet|);
      var rest := SpelledExact(alphabet, q);
      digits := [value % |alphabet|] + rest;
      assert digits[1..] == rest;
    }
  }

  lemma {:induction false} SpelledNative(alphabet: string, value: nat)
    requires |alphabet| >= 2 && Distinct(alphabet)
    ensures Native(RuneToValue(alphabet, |alphabet|), Spelled(alphabet, value))
    decreases value
  {
    RunesOfDistinct(alphabet, |alphabet|);
    if value > 0 {
      SpelledNative(alphabet, Quotient(value, |alphabet|));
    }
  }

  /** What was spelled weighs the number. */
  lemma {:induction false} WeightOfSpelled(alphabet: string, value: nat)
    requires |alphabet| >= 2 && Distinct(alphabet)
    ensures Native(RuneToValue(alphabet, |alphabet|), Spelled(alphabet, value))
    ensures var text := Spelled(alphabet, value);
            Weight(|alphabet|, RuneToValue(alphabet, |alphabet|), text, |text|) == value
    decreases value
  {
    hide Weight, RuneToValue;
    var base, runes, text := |alphabet|, RuneToValue(alphabet, |alphabet|), Spelled(alphabet, value);
    SpelledNative(alphabet, value);
    if value > 0 {
      var q := Quotient(value, base);
      WeightOfSpelled(alphabet, q);
      WeightCons(base, runes, text, |text|);
      assert text[1..] == Spelled(alphabet, q);
      RunesOfDistinct(alphabet, base);
    } else {
      WeightOfNothing(base, runes);
    }
  }

  lemma {:induction false} WeightOfNothing(base: nat, runes: map<char, nat>)
    ensures Weight(base, runes, "", 0) == 0
  {
  }

  function TrimTrailing(text: string, zero: char): string {
    if |text| > 0 && text[|text| - 1] == zero then TrimTrailing(text[..|text| - 1], zero) else text
  }

  lemma {:induction false} TrimTrailingCons(c: char, text: string, zero: char)
    ensures TrimTrailing([c] + text, zero) ==
            if TrimTrailing(text, zero) == "" && c == zero then "" else [c] + TrimTrailing(text, zero)
  {
    if |text| > 0 && text[|text| - 1] == zero {
      TrimTrailingCons(c, text[..|text| - 1], zero);
      assert ([c] + text)[..|text|] == [c] + text[..|text| - 1];
    } else if |text| == 0 {
      assert [c] + text == [c];
      assert [c][..0] == "";
    }
  }

  /** What a text weighs is spelled as that text without its trailing zero digits. */
  lemma {:induction false} SpelledOfWeight(alphabet: string, text: string)
    requires |alphabet| >= 2 && Distinct(alphabet) && Native(RuneToValue(alphabet, |alphabet|), text)
    ensures Spelled(alphabet, Weight(|alphabet|, RuneToValue(alphabet, |alphabet|), text, |text|)) ==
            TrimTrailing(text, alphabet[0])
  {
    hide Weight, RuneToValue, TrimTrailing;
    var base, runes := |alphabet|, RuneToValue(alphabet, |alphabet|);
    if |text| == 0 {
      WeightOfNothing(base, runes);
      TrimNothing(alphabet[0]);
    } else {
      var rest := text[1..];
      assert text == [text[0]] + rest;
      SpelledOfWeight(alphabet, rest);
      WeightCons(base, runes, text, |text|);
      TrimTrailingCons(text[0], rest, alphabet[0]);
      RunesOfDistinct(alphabet, base);
      var w := Weight(base, runes, rest, |rest|);
      DivisionIsUnique(base, w, runes[text[0]]);
      SpelledEmpty(alphabet, w);
      SpelledPositive(alphabet, base, w, runes[text[0]]);
    }
  }

  lemma {:induction false} TrimNothing(zero: char)
    ensures TrimTrailing("", zero) == ""
  {
  }

  lemma {:induction false} SpelledEmpty(alphabet: string, value: nat)
    requires |alphabet| >= 2
    ensures Spelled(alphabet, value) == "" <==> value == 0
  {
  }

  lemma {:induction false} SpelledPositive(alphabet: string, base: nat, w: nat, r: nat)
    requires |alphabet| == base && base >= 2 && r < base
    ensures r + base * w == 0 <==> r == 0 && w == 0
    ensures Spelled(alphabet, r + base * w) == if r == 0 && w == 0 then "" else [alphabet[r]] + Spelled(alphabet, w)
  {
    DivisionIsUnique(base, w, r);
    if w > 0 {
      assert base * w >= base * 1;
    }
  }

  // ---------------------------------------------------------------- bytes and back

  function TrimLeading(data: seq<byte>): seq<byte> {
    if |data| > 0 && data[0] == 0 then TrimLeading(data[1..]) else data
  }

  lemma {:induction false} TrimLeadingSnoc(data: seq<byte>, b: byte)
    ensures TrimLeading(data + [b]) == if TrimLeading(data) == [] && b == 0 then [] else TrimLeading(data) + [b]
  {
    if |data| > 0 && data[0] == 0 {
      TrimLeadingSnoc(data[1..], b);
      assert (data + [b])[1..] == data[1..] + [b];
    } else if |data| == 0 {
      assert data + [b] == [b];
      assert [b][1..] == [];
    }
  }

  lemma {:induction false} ToBytesOfFromBytes(data: seq<byte>, n: nat)
    requires n <= |data|
    ensures ToBytes(FromBytes(data, n)) == TrimLeading(data[..n])
  {
    hide TrimLeading;
    if n > 0 {
      ToBytesOfFromBytes(data, n - 1);
      TrimLeadingSnoc(data[..n - 1], data[n - 1]);
      assert data[..n] == data[..n - 1] + [data[n - 1]];
      ToBytesStep(FromBytes(data, n - 1), data[n - 1]);
    } else {
      TrimLeadingNone(data[..0]);
    }
  }

  lemma {:induction false} TrimLeadingNone(data: seq<byte>)
    requires |data| == 0
    ensures TrimLeading(data) == []
  {
  }

  lemma {:induction false} ToBytesStep(value: nat, b: byte)
    ensures ToBytes(value * 256 + b) == if ToBytes(value) == [] && b == 0 then [] else ToBytes(value) + [b]
  {
    assert (value * 256 + b) / 256 == value && (value * 256 + b) % 256 == b;
  }

  lemma {:induction false} FromBytesPrefix(data: seq<byte>, more: seq<byte>, n: nat)
    requires n <= |data|
    ensures FromBytes(data + more, n) == FromBytes(data, n)
  {
    if n > 0 {
      FromBytesPrefix(data, more, n - 1);
    }
  }

  lemma {:induction false} FromBytesOfToBytes(value: nat)
    ensures FromBytes(ToBytes(value), |ToBytes(value)|) == value
    decreases value
  {
    if value > 0 {
      FromBytesOfToBytes(value / 256);
      FromBytesPrefix(ToBytes(value / 256), [value % 256], |ToBytes(value / 256)|);
    }
  }

  // ---------------------------------------------------------------- main results

  /** What Encode answers, by its contract. */
  function Encoded(alphabet: string, data: seq<byte>): string
    requires |alphabet| >= 2
  {
    Spelled(alphabet, FromBytes(data, |data|))
  }

  /** What Decode answers for a text of the alphabet, by its contract. */
  function Decoded(alphabet: string, text: string): seq<byte>
    requires Native(RuneToValue(alphabet, |alphabet|), text)
  {
    ToBytes(Weight(|alphabet|, RuneToValue(alphabet, |alphabet|), text, |text|))
  }

  /** Decoding what was encoded gives the bytes without leading zeros. */
  lemma {:induction false} DecodeEncoded(alphabet: string, data: seq<byte>)
    requires |alphabet| >= 2 && Distinct(alphabet)
    ensures Native(RuneToValue(alphabet, |alphabet|), Encoded(alphabet, data))
    ensures Decoded(alphabet, Encoded(alphabet, data)) == TrimLeading(data)
  {
    hide RuneToValue, Weight;
    WeightOfSpelled(alphabet, FromBytes(data, |data|));
    ToBytesOfFromBytes(data, |data|);
    assert data[..|data|] == data;
  }

  /** Encoding what was decoded gives the text without trailing zero digits. */
  lemma {:induction false} EncodeDecoded(alphabet: string, text: string)
    requires |alphabet| >= 2 && Distinct(alphabet) && Native(RuneToValue(alphabet, |alphabet|), text)
    ensures Encoded(alphabet, Decoded(alphabet, text)) == TrimTrailing(text, alphabet[0])
  {
    hide RuneToValue, Weight;
    FromBytesOfToBytes(Weight(|alphabet|, RuneToValue(alphabet, |alphabet|), text, |text|));
    SpelledOfWeight(alphabet, text);
  }

  lemma {:induction false} FromBytesInjective(a: seq<byte>, b: seq<byte>, n: nat)
    requires |a| == |b| && n <= |a| && FromBytes(a, n) == FromBytes(b, n)
    ensures a[..n] == b[..n]
  {
    if n > 0 {
      FromBytesInjective(a, b, n - 1);
      assert a[..n] == a[..n - 1] + [a[n - 1]];
      assert b[..n] == b[..n - 1] + [b[n - 1]];
    }
  }

  /** Byte strings of one length have different encodings; others agree only up to leading zeros. */
  lemma {:induction false} EncodeInjective(alphabet: string, a: seq<byte>, b: seq<byte>)
    requires |alphabet| >= 2 && Distinct(alphabet)
    ensures |a| == |b| ==> (Encoded(alphabet, a) == Encoded(alphabet, b) <==> a == b)
    ensures Encoded(alphabet, a) == Encoded(alphabet, b) <==> TrimLeading(a) == TrimLeading(b)
  {
    hide RuneToValue, Weight, Spelled;
    WeightOfSpelled(alphabet, FromBytes(a, |a|));
    WeightOfSpelled(alphabet, FromBytes(b, |b|));
    if |a| == |b| && FromBytes(a, |a|) == FromBytes(b, |b|) {
      FromBytesInjective(a, b, |a|);
      assert a[..|a|] == a && b[..|b|] == b;
    }
    SameBytes(a, b);
  }

  lemma {:induction false} SameBytes(a: seq<byte>, b: seq<byte>)
    ensures FromBytes(a, |a|) == FromBytes(b, |b|) <==> TrimLeading(a) == TrimLeading(b)
  {
    hide FromBytes, ToBytes;
    ToBytesOfFromBytes(a, |a|);
    ToBytesOfFromBytes(b, |b|);
    assert a[..|a|] == a && b[..|b|] == b;
    FromBytesOfToBytes(FromBytes(a, |a|));
    FromBytesOfToBytes(FromBytes(b, |b|));
  }

  /** How long the text of a number is. */
  lemma {:induction false} LengthExact(alphabet: string, value: nat, k: nat)
    requires |alphabet| >= 2
    ensures |Spelled(alphabet, value)| <= k <==> value < Pow(|alphabet|, k)
    decreases k
  {
    var base := |alphabet|;
    if value > 0 && k > 0 {
      var q, p := Quotient(value, base), Pow(base, k - 1);
      LengthExact(alphabet, q, k - 1);
      CompareQuotients(base, q, value % base, p);
    } else {
      PowPositive(base, k);
    }
  }

  lemma {:induction false} FromBytesBound(data: seq<byte>, n: nat)
    requires n <= |data|
    ensures FromBytes(data, n) < Pow(256, n)
  {
    if n > 0 {
      FromBytesBound(data, n - 1);
    }
  }

  /** UUIDs have 16 bytes: their base-62 texts have at most 22 characters, and are as distinct as the UUIDs. */
  lemma {:induction false} UUIDsAreShort(a: seq<byte>, b: seq<byte>)
    requires |a| == |b| == 16
    ensures |Encoded(ALPHABET_BASE62, a)| <= 22
    ensures Encoded(ALPHABET_BASE62, a) == Encoded(ALPHABET_BASE62, b) <==> a == b
  {
    hide Spelled, FromBytes, Pow, Distinct;
    Base62Distinct();
    EncodeInjective(ALPHABET_BASE62, a, b);
    FromBytesBound(a, 16);
    PowersCompared();
    LengthExact(ALPHABET_BASE62, FromBytes(a, 16), 22);
  }

  /** 22 is the bound, not 21. */
  lemma {:induction false} LongestUUID()
    ensures |Encoded(ALPHABET_BASE62, seq(16, i => 0xFF))| == 22
  {
    hide Spelled, FromBytes, Pow;
    var data: seq<byte> := seq(16, i => 0xFF);
    AllOnes(data, 16);
    PowersCompared();
    LengthExact(ALPHABET_BASE62, FromBytes(data, 16), 22);
    LengthExact(ALPHABET_BASE62, FromBytes(data, 16), 21);
  }

  lemma {:induction false} AllOnes(data: seq<byte>, n: nat)
    requires n <= |data| && forall i :: 0 <= i < n ==> data[i] == 0xFF
    ensures FromBytes(data, n) == Pow(256, n) - 1
  {
    if n > 0 {
      AllOnes(data, n - 1);
    }
  }

  lemma {:induction false} PowDouble(base: nat, n: nat)
    ensures Pow(base, n + n) == Pow(base, n) * Pow(base, n)
  {
    if n > 0 {
      PowDouble(base, n - 1);
      var p := Pow(base, n - 1);
      assert Pow(base, n + n - 1) == base * (p * p);
      assert base * (base * (p * p)) == (base * p) * (base * p);
    }
  }

  lemma {:induction false} PowersCompared()
    ensures Pow(62, 21) < Pow(256, 16) < Pow(62, 22)
  {
    assert Pow(62, 5) == 916132832 && Pow(256, 4) == 4294967296;
    PowDouble(62, 5);
    PowDouble(62, 10);
    PowStep(62, 20);
    PowStep(62, 21);
    PowDouble(256, 4);
    PowDouble(256, 8);
  }

  lemma {:induction false} Base62Distinct()
    ensures Distinct(ALPHABET_BASE62)
  {
    forall i, j | 0 <= i < j < 62 ensures ALPHABET_BASE62[i] != ALPHABET_BASE62[j] {
      assert Base62Char(i) != Base62Char(j);
    }
  }
}
