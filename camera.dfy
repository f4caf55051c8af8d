/** The checksum blob that hides the player handle. Both src/main.rs
    (`generate_checksum` / `derive_handle`) and src/bank.rs
    (`Bank::generate_camera_checksum` / `derive_player_handle`) write an
    account checksum with maximum 99000000 and then a runling sum with
    maximum 98000000, and read back only the runling sum, the last value
    stored. They differ only in the runling sum, which each file's own
    module supplies. */
module CameraBlob {
  import opened Results
  import opened Starcode
  import opened FieldTable

  const AccountSumMax: nat := 99000000
  const UnitSumMax: nat := 98000000

  /** The two-field table of the blob, in storing order. */
  const CameraMaxVals: seq<nat> := [AccountSumMax, UnitSumMax]

  /** The blob written for an account checksum and a runling sum. */
  function CameraChecksum(accountSum: nat, unitSum: nat): Result<string> {
    EncodedFields([accountSum, unitSum], CameraMaxVals)
  }

  /** The runling sum read back from a blob: `get_int(&mut data, 98000000)`
      on the decrypted, uncompressed blob. */
  function StoredUnitSum(blob: string): (r: Result<nat>)
    ensures r.Ok? <==> IsAlphabetString(blob)
    ensures r.Ok? ==> r.value <= UnitSumMax
    ensures r.Err? ==> r.error == InvalidCharacter
  {
    if IsAlphabetString(blob) then Ok(Extract(Unscrambled(blob), 98000000).0)
    else Err(InvalidCharacter)
  }

  /** The field table of a two-field blob, unfolded. */
  lemma PairTable(accountSum: nat, unitSum: nat)
    ensures InRange([accountSum, unitSum], CameraMaxVals) <==>
      accountSum <= AccountSumMax && unitSum <= UnitSumMax
    ensures InRange([accountSum, unitSum], CameraMaxVals) ==>
      Packed(0, [accountSum, unitSum], CameraMaxVals)
        == Store(Store(0, accountSum, AccountSumMax), unitSum, UnitSumMax)
    ensures forall acc: nat {:trigger Unpacked(acc, CameraMaxVals)} ::
      Unpacked(acc, CameraMaxVals).0[1] == Extract(acc, UnitSumMax).0
  {
    var vals := [accountSum, unitSum];
    if accountSum <= AccountSumMax && unitSum <= UnitSumMax {
      assert InRange(vals, CameraMaxVals);
      assert vals[..1] == [accountSum] && CameraMaxVals[..1] == [AccountSumMax];
      assert vals[..1][..0] == [] && CameraMaxVals[..1][..0] == [];
      assert InRange([accountSum], [AccountSumMax]);
      assert Packed(0, [accountSum], [AccountSumMax]) == Store(0, accountSum, AccountSumMax);
    }
    if InRange(vals, CameraMaxVals) {
      assert vals[0] <= CameraMaxVals[0] && vals[1] <= CameraMaxVals[1];
    }
    forall acc: nat
      ensures Unpacked(acc, CameraMaxVals).0[1] == Extract(acc, UnitSumMax).0
    {
      assert CameraMaxVals[..1] == [AccountSumMax];
      var (low, rest) := Extract(acc, UnitSumMax);
      var (high, left) := Unpacked(rest, [AccountSumMax]);
      assert Unpacked(acc, CameraMaxVals) == (high + [low], left);
    }
  }

  /** The two `store_int` calls followed by `compress` and `encrypt`. */
  method GenerateCameraChecksum(accountSum: nat, unitSum: nat) returns (r: Result<string>)
    ensures r == CameraChecksum(accountSum, unitSum)
  {
    PairTable(accountSum, unitSum);
    var data := StoreInt(0, accountSum, AccountSumMax);
    if data.Err? {
      return Err(data.error);
    }
    data := StoreInt(data.value, unitSum, UnitSumMax);
    if data.Err? {
      return Err(data.error);
    }
    var numeral := Compress(data.value);
    var blob := Encrypt(numeral);
    r := Ok(blob);
  }

  /** `uncompress(decrypt(checksum))` followed by one `get_int`. */
  method ReadStoredUnitSum(blob: string) returns (r: Result<nat>)
    ensures r == StoredUnitSum(blob)
  {
    if !IsAlphabetString(blob) {
      return Err(InvalidCharacter);
    }
    var numeral := Decrypt(blob);
    var data := Uncompress(numeral);
    var unitSum, _ := GetInt(data, UnitSumMax);
    r := Ok(unitSum);
  }

  /** The blob is written exactly when both sums are within their maxima,
      and then the runling sum is read back from it. */
  lemma StoredUnitSumOfChecksum(accountSum: nat, unitSum: nat)
    ensures CameraChecksum(accountSum, unitSum).Ok? <==>
      accountSum <= AccountSumMax && unitSum <= UnitSumMax
    ensures CameraChecksum(accountSum, unitSum).Ok? ==>
      StoredUnitSum(CameraChecksum(accountSum, unitSum).value) == Ok(unitSum)
  {
    var vals := [accountSum, unitSum];
    DecodeEncoded(vals, CameraMaxVals);
    PairTable(accountSum, unitSum);
    if InRange(vals, CameraMaxVals) {
      var blob := CameraChecksum(accountSum, unitSum).value;
      assert Unpacked(Unscrambled(blob), CameraMaxVals).0 == vals;
    }
  }
}
