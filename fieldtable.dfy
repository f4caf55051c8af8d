/** A record field table: a list of fields, each with its declared maximum,
    written into one starcode accumulator in table order by repeated
    `store_int` and read back by repeated `get_int` in the opposite order.
    `Account` and `Runling` (src/model.rs, and their copies in src/main.rs)
    are the two instances; each of their `to_data` / `from_data` is a
    straight run of these calls over its table. */
module FieldTable {
  import opened Results
  import opened Starcode

  /** Every value is within the maximum at the same position. */
  predicate InRange(vals: seq<nat>, maxs: seq<nat>) {
    |vals| == |maxs| && forall i :: 0 <= i < |vals| ==> vals[i] <= maxs[i]
  }

  /** The accumulator after storing `vals` in order, each with its maximum,
      on top of `acc`: the last value stored is the lowest digit. */
  function Packed(acc: nat, vals: seq<nat>, maxs: seq<nat>): nat
    requires InRange(vals, maxs)
    decreases |vals|
  {
    if vals == [] then acc
    else
      var n := |vals| - 1;
      Store(Packed(acc, vals[..n], maxs[..n]), vals[n], maxs[n])
  }

  /** Extracting one field per maximum, the last maximum first: the values
      in table order and what is left of the accumulator. */
  function Unpacked(acc: nat, maxs: seq<nat>): (r: (seq<nat>, nat))
    ensures InRange(r.0, maxs)
    decreases |maxs|
  {
    if maxs == [] then ([], acc)
    else
      var n := |maxs| - 1;
      var (val, rest) := Extract(acc, maxs[n]);
      var (vals, left) := Unpacked(rest, maxs[..n]);
      (vals + [val], left)
  }

  /** Unpacking with the same table gives back the stored values and the
      accumulator they were stored on. */
  lemma {:induction false} UnpackPacked(acc: nat, vals: seq<nat>, maxs: seq<nat>)
    requires InRange(vals, maxs)
    ensures Unpacked(Packed(acc, vals, maxs), maxs) == (vals, acc)
    decreases |vals|
  {
    if vals != [] {
      var n := |vals| - 1;
      assert InRange(vals[..n], maxs[..n]);
      UnpackPacked(acc, vals[..n], maxs[..n]);
      ExtractStore(Packed(acc, vals[..n], maxs[..n]), vals[n], maxs[n]);
      assert vals[..n] + [vals[n]] == vals;
    }
  }

  /** Packing back what was unpacked restores the accumulator. */
  lemma {:induction false} PackUnpacked(acc: nat, maxs: seq<nat>)
    ensures Packed(Unpacked(acc, maxs).1, Unpacked(acc, maxs).0, maxs) == acc
    decreases |maxs|
  {
    if maxs != [] {
      var n := |maxs| - 1;
      var (val, rest) := Extract(acc, maxs[n]);
      var (vals, left) := Unpacked(rest, maxs[..n]);
      PackUnpacked(rest, maxs[..n]);
      var all := vals + [val];
      assert all[..n] == vals;
      StoreExtract(acc, maxs[n]);
    }
  }

  /** The repeated `store_int` of a `to_data`, starting from `acc`. The first
      value above its maximum trips the source's assertion. */
  method StoreFields(acc: nat, vals: seq<nat>, maxs: seq<nat>) returns (r: Result<nat>)
    requires |vals| == |maxs|
    ensures InRange(vals, maxs) ==> r == Ok(Packed(acc, vals, maxs))
    ensures !InRange(vals, maxs) ==> r == Err(ValueOutOfRange)
  {
    var data := acc;
    for i := 0 to |vals|
      invariant InRange(vals[..i], maxs[..i])
      invariant data == Packed(acc, vals[..i], maxs[..i])
    {
      var next := StoreInt(data, vals[i], maxs[i]);
      if next.Err? {
        return next;
      }
      assert vals[..i + 1][..i] == vals[..i] && maxs[..i + 1][..i] == maxs[..i];
      data := next.value;
    }
    assert vals[..|vals|] == vals && maxs[..|maxs|] == maxs;
    r := Ok(data);
  }

  /** The repeated `get_int` of a `from_data`: extracts the last field
      first and returns the values in table order, with the leftover. */
  method ExtractFields(acc: nat, maxs: seq<nat>) returns (vals: seq<nat>, left: nat)
    ensures (vals, left) == Unpacked(acc, maxs)
  {
    vals := [];
    left := acc;
    var k := |maxs|;
    assert maxs[..k] == maxs;
    assert Unpacked(acc, maxs).0 + vals == Unpacked(acc, maxs).0;
    while k > 0
      invariant 0 <= k <= |maxs|
      invariant Unpacked(acc, maxs) == (Unpacked(left, maxs[..k]).0 + vals, Unpacked(left, maxs[..k]).1)
    {
      assert maxs[..k][..k - 1] == maxs[..k - 1];
      var val, rest := GetInt(left, maxs[k - 1]);
      var lower := Unpacked(rest, maxs[..k - 1]);
      assert Unpacked(left, maxs[..k]) == (lower.0 + [val], lower.1);
      assert (lower.0 + [val]) + vals == lower.0 + ([val] + vals);
      vals := [val] + vals;
      left := rest;
      k := k - 1;
    }
    assert maxs[..0] == [];
    assert Unpacked(left, []).0 + vals == vals;
  }

  /** What `to_data` returns for a record whose fields are `vals`. */
  function EncodedFields(vals: seq<nat>, maxs: seq<nat>): Result<string>
    requires |vals| == |maxs|
  {
    if InRange(vals, maxs) then
      CompressedIsAlphabet(Packed(0, vals, maxs));
      Ok(Encrypted(Compressed(Packed(0, vals, maxs))))
    else Err(ValueOutOfRange)
  }

  /** The accumulator a blob decodes to. */
  function Unscrambled(blob: string): nat
    requires IsAlphabetString(blob)
  {
    DecryptedIsAlphabet(blob);
    Uncompressed(Decrypted(blob))
  }

  /** What `from_data` returns: the fields read back from a blob. A
      character outside the alphabet makes the source's `alphabet_index`
      panic. */
  function DecodedFields(blob: string, maxs: seq<nat>): (r: Result<seq<nat>>)
    ensures r.Ok? <==> IsAlphabetString(blob)
    ensures r.Err? ==> r.error == InvalidCharacter
    ensures r.Ok? ==> InRange(r.value, maxs)
  {
    if IsAlphabetString(blob) then Ok(Unpacked(Unscrambled(blob), maxs).0)
    else Err(InvalidCharacter)
  }

  method EncodeFields(vals: seq<nat>, maxs: seq<nat>) returns (r: Result<string>)
    requires |vals| == |maxs|
    ensures r == EncodedFields(vals, maxs)
  {
    var data := StoreFields(0, vals, maxs);
    if data.Err? {
      return Err(data.error);
    }
    var numeral := Compress(data.value);
    var blob := Encrypt(numeral);
    r := Ok(blob);
  }

  method DecodeFields(blob: string, maxs: seq<nat>) returns (r: Result<seq<nat>>)
    ensures r == DecodedFields(blob, maxs)
  {
    if !IsAlphabetString(blob) {
      return Err(InvalidCharacter);
    }
    var numeral := Decrypt(blob);
    var data := Uncompress(numeral);
    var vals, _ := ExtractFields(data, maxs);
    r := Ok(vals);
  }

  /** Encoding is accepted exactly when every field is within its maximum,
      and then decoding gives the fields back and consumes the whole
      accumulator. */
  lemma DecodeEncoded(vals: seq<nat>, maxs: seq<nat>)
    requires |vals| == |maxs|
    ensures EncodedFields(vals, maxs).Ok? <==> InRange(vals, maxs)
    ensures EncodedFields(vals, maxs).Ok? ==>
      && DecodedFields(EncodedFields(vals, maxs).value, maxs) == Ok(vals)
      && Unpacked(Unscrambled(EncodedFields(vals, maxs).value), maxs).1 == 0
  {
    if InRange(vals, maxs) {
      var n := Packed(0, vals, maxs);
      CompressedIsAlphabet(n);
      DecryptEncrypt(Compressed(n));
      UncompressCompress(n);
      UnpackPacked(0, vals, maxs);
    }
  }

  /** A blob that decodes with no leftover and no leading zero digit is
      re-encoded to itself from its decoded fields. */
  lemma EncodeDecoded(blob: string, maxs: seq<nat>)
    requires IsAlphabetString(blob)
    requires Decrypted(blob) == "" || Decrypted(blob)[0] != '0'
    requires Unpacked(Unscrambled(blob), maxs).1 == 0
    ensures DecodedFields(blob, maxs).Ok?
    ensures EncodedFields(DecodedFields(blob, maxs).value, maxs) == Ok(blob)
  {
    var n := Unscrambled(blob);
    PackUnpacked(n, maxs);
    EncryptDecrypt(blob);
    CompressUncompress(Decrypted(blob));
  }
}
