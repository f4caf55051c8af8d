/** The runling sample of the module tests (src/starcode.rs:105,
    src/main.rs:501), worked through the model: it decodes to the runling
    that the record test of src/model.rs:415-433 expects, and that runling
    encodes back to it. */
module Samples {
  import opened Results
  import opened Starcode
  import opened FieldTable
  import opened Records

  /** The blob of the first unit slot. */
  const RunlingBlob: string := "/Uni.I^uVUgUsr::M3I~IeI0"

  /** The base-89 numeral hidden in the blob. */
  const RunlingNumeral: string := "7K2~Vhugn~6z8dLsyW_#n[u!"

  /** The accumulator the runling's fields pack to. */
  const RunlingValue: nat := 5152619043529182496416455320947104796722090727

  /** The base-89 digits of `RunlingValue`, most significant first. */
  const RunlingDigits: seq<nat> := [7, 46, 2, 87, 57, 17, 30, 16, 23, 87, 6, 35, 8, 13, 47, 28, 34, 58, 75, 77, 23, 83, 30, 62]

  /** The values of the leading digits: `RunlingPrefixes[j]` is the value
      of the first `j` digits of `RunlingDigits`. */
  const RunlingPrefixes: seq<nat> := [0, 7, 669, 59543, 5299414, 471647903, 41976663384, 3735923041206, 332497150667350, 29592246409394173, 2633709930436081484, 234400183808811252082, 20861616358984201435333, 1856683855949593927744645, 165244863179513859569273418, 14706792822976733501665334249, 1308904561244929281648214748189, 116492505950798706066691112588855, 10367833029621084839935509020408153, 922737139636276550754260302816325692, 82123605427628613017129166950652986665, 7309000883058946558524495858608115813208, 650501078592246243708680131416122307375595, 57894595994709915690072531696034885356427985, 5152619043529182496416455320947104796722090727]

  /** The digits of the characters of `RunlingBlob`. */
  const RunlingBlobDigits: seq<nat> := [65, 56, 23, 18, 71, 44, 76, 30, 57, 56, 16, 56, 28, 27, 74, 74, 48, 3, 44, 87, 44, 14, 44, 0]

  /** The digits of the characters of the encryption key. */
  const KeyDigits: seq<nat> := [58, 10, 21, 20, 14, 27, 46, 14, 34]

  /** Class 1, experience 663, energy regeneration 11, maximum energy 16,
      speed 17, skill levels 4 and 0, runling level 15, no points left. */
  const SampleRunling: Runling := Runling(1, 663, 11, 16, 17, 4, 0, 15, 0)

  /** Storing one more field multiplies by its radix and adds it. */
  lemma PackedSnoc(vals: seq<nat>, maxs: seq<nat>, v: nat, m: nat)
    requires InRange(vals, maxs) && v <= m
    ensures InRange(vals + [v], maxs + [m])
    ensures Packed(0, vals + [v], maxs + [m]) == Packed(0, vals, maxs) * (m + 1) + v
  {
    assert (vals + [v])[..|vals|] == vals;
    assert (maxs + [m])[..|maxs|] == maxs;
  }

  /** The sample runling's fields pack, in `to_data`'s order, to
      `RunlingValue`. */
  lemma SamplePacked()
    ensures InRange(RunlingFields(SampleRunling), RunlingMaxVals)
    ensures Packed(0, RunlingFields(SampleRunling), RunlingMaxVals) == RunlingValue
  {
    var v0: seq<nat>, m0: seq<nat> := [], [];
    PackedSnoc(v0, m0, 1, 300000);
    var v1, m1 := v0 + [1], m0 + [300000];
    assert Packed(0, v1, m1) == 1;
    PackedSnoc(v1, m1, 663, 8100000);
    var v2, m2 := v1 + [663], m1 + [8100000];
    assert Packed(0, v2, m2) == 8100664;
    PackedSnoc(v2, m2, 11, 320000);
    var v3, m3 := v2 + [11], m2 + [320000];
    assert Packed(0, v3, m3) == 2592220580675;
    PackedSnoc(v3, m3, 16, 330000);
    var v4, m4 := v3 + [16], m3 + [330000];
    assert Packed(0, v4, m4) == 855435383843330691;
    PackedSnoc(v4, m4, 17, 340000);
    var v5, m5 := v4 + [17], m4 + [340000];
    assert Packed(0, v5, m5) == 290848885942116278270708;
    PackedSnoc(v5, m5, 4, 350000);
    var v6, m6 := v5 + [4], m5 + [350000];
    assert Packed(0, v6, m6) == 101797400928626639511026070712;
    PackedSnoc(v6, m6, 0, 360000);
    var v7, m7 := v6 + [0], m6 + [360000];
    assert Packed(0, v7, m7) == 36647166131706518850608896482390712;
    PackedSnoc(v7, m7, 15, 370000);
    var v8, m8 := v7 + [15], m7 + [370000];
    assert Packed(0, v8, m8) == 13559488115897543681244142307381045830727;
    PackedSnoc(v8, m8, 0, 380000);
    var v9, m9 := v8 + [0], m8 + [380000];
    assert Packed(0, v9, m9) == 5152619043529182496416455320947104796722090727;
    assert v9 == RunlingFields(SampleRunling) && m9 == RunlingMaxVals;
  }

  /** Position `k` of the alphabet is the digit of value `k`. */
  lemma Digit(k: nat, c: char)
    requires k < 89 && Alphabet[k] == c
    ensures DigitAt(k) == c && InAlphabet(c) && AlphabetIndex(c) == k
  {
    NthFromIsIndex(Alphabet, 0, k);
    DigitIndex(k);
  }

  /** One more digit of a numeral: if its first `i` characters are
      alphabet characters worth `high`, its first `i + 1` are worth
      `high * 89 + digit`, where `digit` is the value of character `i`. */
  lemma UncompressedPrefix(s: string, i: nat, high: nat, digit: nat)
    requires i < |s| && digit < 89 && Alphabet[digit] == s[i]
    requires IsAlphabetString(s[..i]) && Uncompressed(s[..i]) == high
    ensures IsAlphabetString(s[..i + 1]) && Uncompressed(s[..i + 1]) == high * 89 + digit
  {
    Digit(digit, s[i]);
    assert s[..i + 1][..i] == s[..i];
  }

  /** A numeral whose characters are the alphabet digits `ds`, where each
      `ps[j + 1]` extends `ps[j]` by digit `ds[j]`, has its first `i`
      characters worth `ps[i]`. */
  lemma {:induction false} UncompressedPrefixes(s: string, ds: seq<nat>, ps: seq<nat>, i: nat)
    requires |s| == |ds| && |ps| == |s| + 1 && i <= |s| && ps[0] == 0
    requires forall j :: 0 <= j < |s| ==> ds[j] < 89 && Alphabet[ds[j]] == s[j]
    requires forall j :: 0 <= j < |s| ==> ps[j + 1] == ps[j] * 89 + ds[j]
    ensures IsAlphabetString(s[..i]) && Uncompressed(s[..i]) == ps[i]
    decreases i
  {
    if i == 0 {
      assert s[..0] == "";
    } else {
      UncompressedPrefixes(s, ds, ps, i - 1);
      UncompressedPrefix(s, i - 1, ps[i - 1], ds[i - 1]);
    }
  }

  /** `RunlingNumeral` spells `RunlingDigits` in the alphabet. */
  lemma RunlingDigitsSpelled()
    ensures |RunlingNumeral| == |RunlingDigits|
    ensures forall j :: 0 <= j < |RunlingNumeral| ==>
      RunlingDigits[j] < 89 && Alphabet[RunlingDigits[j]] == RunlingNumeral[j]
  {
  }

  /** Each entry of `RunlingPrefixes` extends the one before by a digit,
      and the last is `RunlingValue`. */
  lemma RunlingPrefixesStep()
    ensures |RunlingPrefixes| == |RunlingDigits| + 1 && RunlingPrefixes[0] == 0
    ensures forall j :: 0 <= j < |RunlingDigits| ==>
      RunlingPrefixes[j + 1] == RunlingPrefixes[j] * 89 + RunlingDigits[j]
    ensures RunlingPrefixes[|RunlingDigits|] == RunlingValue
  {
  }

  /** `compress` writes `RunlingValue` as `RunlingNumeral`: the numeral
      spells the digits of `RunlingValue` and has no leading zero. */
  lemma SampleNumeral()
    ensures IsAlphabetString(RunlingNumeral)
    ensures Compressed(RunlingValue) == RunlingNumeral
  {
    RunlingDigitsSpelled();
    RunlingPrefixesStep();
    UncompressedPrefixes(RunlingNumeral, RunlingDigits, RunlingPrefixes, |RunlingNumeral|);
    assert RunlingNumeral[..|RunlingNumeral|] == RunlingNumeral;
    CompressUncompress(RunlingNumeral);
  }

  /** A sum of two digits that is `k` or `k` plus a whole turn of the
      alphabet is `k` modulo 89. */
  lemma TurnResidue(a: nat, e: nat, k: nat)
    requires k < 89 && (a + e == k || a + e == k + 89)
    ensures (a + e) % 89 == k
  {
    if a + e == k + 89 {
      assert (k + 89) % 89 == k;
    }
  }

  /** Digit `a` shifted forward by digit `e` is digit `(a + e) mod 89`. */
  lemma ShiftDigits(c: char, d: char, r: char, a: nat, e: nat, k: nat)
    requires a < 89 && e < 89 && k < 89 && (a + e) % 89 == k
    requires Alphabet[a] == c && Alphabet[e] == d && Alphabet[k] == r
    ensures InAlphabet(c) && InAlphabet(d) && ShiftForward(c, d) == r
  {
    Digit(a, c);
    Digit(e, d);
    Digit(k, r);
    IndexInjective(ShiftForward(c, d), r);
  }

  /** The same shift, with the sum of the digits reduced by hand. */
  lemma ShiftDigitSum(c: char, d: char, r: char, a: nat, e: nat, k: nat)
    requires a < 89 && e < 89 && k < 89 && (a + e == k || a + e == k + 89)
    requires Alphabet[a] == c && Alphabet[e] == d && Alphabet[k] == r
    ensures InAlphabet(c) && InAlphabet(d) && ShiftForward(c, d) == r
  {
    TurnResidue(a, e, k);
    ShiftDigits(c, d, r, a, e, k);
  }

  /** The digits of the characters of `EncryptionKey`. */
  lemma KeyDigitsSpelled()
    ensures |KeyDigits| == |EncryptionKey|
    ensures forall j :: 0 <= j < |KeyDigits| ==> KeyDigits[j] < 89 && Alphabet[KeyDigits[j]] == EncryptionKey[j]
  {
  }

  /** The key character of position `j` is the alphabet digit
      `KeyDigits[j % 9]`. */
  lemma KeyDigitAt(j: nat)
    ensures KeyDigits[j % 9] < 89 && Alphabet[KeyDigits[j % 9]] == KeyChar(j)
  {
    KeyDigitsSpelled();
    NthFromIsIndex(EncryptionKey, 0, j % 9);
  }

  /** Position `j` of an alphabet string holding digit `a` encrypts to the
      character of digit `k` when `k` is `a` shifted by the key digit. */
  lemma EncryptedDigitAt(s: string, r: string, j: nat, a: nat, k: nat)
    requires IsAlphabetString(s) && j < |s| && j < |r|
    requires a < 89 && k < 89 && Alphabet[a] == s[j] && Alphabet[k] == r[j]
    requires a + KeyDigits[j % 9] == k || a + KeyDigits[j % 9] == k + 89
    ensures Encrypted(s)[j] == r[j]
  {
    EncryptedAt(s, j);
    KeyDigitAt(j);
    ShiftDigitSum(s[j], KeyChar(j), r[j], a, KeyDigits[j % 9], k);
  }

  /** A string spelling digits `sd` encrypts to the string spelling `rd`
      when each digit of `rd` is the digit of `sd` shifted forward by the
      key digit of its position. */
  lemma EncryptedDigits(s: string, r: string, sd: seq<nat>, rd: seq<nat>)
    requires |s| == |sd| && |r| == |rd| && |s| == |r|
    requires forall j :: 0 <= j < |s| ==> sd[j] < 89 && Alphabet[sd[j]] == s[j]
    requires forall j :: 0 <= j < |r| ==> rd[j] < 89 && Alphabet[rd[j]] == r[j]
    requires forall j :: 0 <= j < |s| ==>
      sd[j] + KeyDigits[j % 9] == rd[j] || sd[j] + KeyDigits[j % 9] == rd[j] + 89
    ensures IsAlphabetString(s) && Encrypted(s) == r
  {
    forall j | 0 <= j < |s|
      ensures InAlphabet(s[j])
    {
      Digit(sd[j], s[j]);
    }
    AlphabetStringIff(s);
    forall j | 0 <= j < |s|
      ensures Encrypted(s)[j] == r[j]
    {
      EncryptedDigitAt(s, r, j, sd[j], rd[j]);
    }
  }

  /** `RunlingBlob` spells `RunlingBlobDigits` in the alphabet. */
  lemma RunlingBlobSpelled()
    ensures |RunlingBlob| == |RunlingBlobDigits|
    ensures forall j :: 0 <= j < |RunlingBlob| ==>
      RunlingBlobDigits[j] < 89 && Alphabet[RunlingBlobDigits[j]] == RunlingBlob[j]
  {
  }

  /** The blob digits of positions `0` to `11` are the numeral digits
      shifted by the key digits. */
  lemma RunlingBlobShiftedLow()
    ensures forall j :: 0 <= j < 12 ==>
      var sum := RunlingDigits[j] + KeyDigits[j % 9];
      sum == RunlingBlobDigits[j] || sum == RunlingBlobDigits[j] + 89
  {
  }

  /** The same for positions `12` to `23`. */
  lemma RunlingBlobShiftedHigh()
    ensures forall j :: 12 <= j < 24 ==>
      var sum := RunlingDigits[j] + KeyDigits[j % 9];
      sum == RunlingBlobDigits[j] || sum == RunlingBlobDigits[j] + 89
  {
  }

  /** Each blob digit is the numeral digit shifted by the key digit. */
  lemma RunlingBlobShifted()
    ensures |RunlingBlobDigits| == |RunlingDigits|
    ensures forall j :: 0 <= j < |RunlingDigits| ==>
      var sum := RunlingDigits[j] + KeyDigits[j % 9];
      sum == RunlingBlobDigits[j] || sum == RunlingBlobDigits[j] + 89
  {
    RunlingBlobShiftedLow();
    RunlingBlobShiftedHigh();
  }

  /** `encrypt` turns the numeral into the blob. */
  lemma SampleEncrypted()
    ensures IsAlphabetString(RunlingNumeral) && Encrypted(RunlingNumeral) == RunlingBlob
  {
    RunlingDigitsSpelled();
    RunlingBlobSpelled();
    RunlingBlobShifted();
    EncryptedDigits(RunlingNumeral, RunlingBlob, RunlingDigits, RunlingBlobDigits);
  }

  /** A runling whose fields pack to `n`, written as `numeral` and
      encrypted to `blob`, encodes to `blob`, and `blob` decodes back. */
  lemma RunlingEncodedAs(r: Runling, n: nat, numeral: string, blob: string)
    requires InRange(RunlingFields(r), RunlingMaxVals)
    requires Packed(0, RunlingFields(r), RunlingMaxVals) == n
    requires Compressed(n) == numeral && IsAlphabetString(numeral) && Encrypted(numeral) == blob
    ensures EncodedRunling(r) == Ok(blob) && DecodedRunling(blob) == Ok(r)
  {
    RunlingRoundTrip(r);
  }

  /** `to_data` of the test's runling is the sample blob, and `from_data`
      of the blob is that runling. */
  lemma RunlingSample()
    ensures EncodedRunling(SampleRunling) == Ok(RunlingBlob)
    ensures DecodedRunling(RunlingBlob) == Ok(SampleRunling)
  {
    SamplePacked();
    SampleNumeral();
    SampleEncrypted();
    RunlingEncodedAs(SampleRunling, RunlingValue, RunlingNumeral, RunlingBlob);
  }
}
