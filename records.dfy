/** The two save records, `Account` and `Runling` (src/model.rs; src/main.rs
    carries an identical copy of both codecs). Each is a fixed list of
    bounded counters; `to_data` writes them through the field table in
    declaration order and `from_data` reads them back in reverse. */
module Records {
  import opened Results
  import opened Starcode
  import opened FieldTable

  datatype Account = Account(
    normalGames: nat,
    normalWins: nat,
    hardGames: nat,
    hardWins: nat,
    totalSaves: nat,
    totalScore: nat,
    totalDeaths: nat,
    bot2000Kills: nat,
    odinKills: nat,
    diabloKills: nat,
    insaneGames: nat,
    insaneWins: nat,
    blank3Placeholder: nat,
    timeGames: nat,
    timeWins: nat,
    minigameHighScore: nat,
    timeHighScore: nat,
    cameraDistance: nat,
    cameraRotation: nat,
    cameraAngle: nat,
    cameraFollow: nat,
    hideTips: nat,
    hideHud: nat,
    hideMinimap: nat,
    hideEnergyBar: nat,
    hideExperienceBar: nat,
    hideMenu: nat,
    wasdMovement: nat,
    increaseDistanceSkill: nat,
    decreaseDistanceSkill: nat,
    rotateRightSkill: nat,
    rotateLeftSkill: nat,
    followRunlingSkill: nat)

  /** `account_max_vals`, in field declaration order. */
  const AccountMaxVals: seq<nat> :=
    [190000, 100000, 110000, 120000, 90300000, 94000000, 96000000, 150000, 160000, 170000, 180000]
    + [190000, 200000, 210000, 220000, 230000, 240000, 1000, 1001, 1002, 1003, 1004]
    + [1005, 1006, 1007, 1008, 1009, 1010, 10, 11, 12, 13, 14]

  /** The fields in declaration order, the order `to_data` stores them. */
  function AccountFields(a: Account): (r: seq<nat>)
    ensures |r| == |AccountMaxVals|
  {
    [a.normalGames, a.normalWins, a.hardGames, a.hardWins, a.totalSaves,
     a.totalScore, a.totalDeaths, a.bot2000Kills, a.odinKills, a.diabloKills,
     a.insaneGames]
    + [a.insaneWins, a.blank3Placeholder, a.timeGames, a.timeWins,
     a.minigameHighScore, a.timeHighScore, a.cameraDistance, a.cameraRotation,
     a.cameraAngle, a.cameraFollow, a.hideTips]
    + [a.hideHud, a.hideMinimap, a.hideEnergyBar, a.hideExperienceBar, a.hideMenu,
     a.wasdMovement, a.increaseDistanceSkill, a.decreaseDistanceSkill,
     a.rotateRightSkill, a.rotateLeftSkill, a.followRunlingSkill]
  }

  /** The account whose fields, in declaration order, are `v`: the struct
      literal `from_data` fills in. */
  function AccountOfFields(v: seq<nat>): Account
    requires |v| == |AccountMaxVals|
  {
    Account(v[0], v[1], v[2], v[3], v[4], v[5], v[6], v[7], v[8], v[9], v[10],
      v[11], v[12], v[13], v[14], v[15], v[16], v[17], v[18], v[19], v[20],
      v[21], v[22], v[23], v[24], v[25], v[26], v[27], v[28], v[29], v[30],
      v[31], v[32])
  }

  lemma AccountFieldsRoundTrip(a: Account, v: seq<nat>)
    requires |v| == |AccountMaxVals|
    ensures AccountOfFields(AccountFields(a)) == a
    ensures AccountFields(AccountOfFields(v)) == v
  {
  }

  /** Each field's maximum, written out field by field. */
  predicate AccountWithinMaxima(a: Account) {
    && a.normalGames <= 190000 && a.normalWins <= 100000
    && a.hardGames <= 110000 && a.hardWins <= 120000
    && a.totalSaves <= 90300000 && a.totalScore <= 94000000
    && a.totalDeaths <= 96000000 && a.bot2000Kills <= 150000
    && a.odinKills <= 160000 && a.diabloKills <= 170000
    && a.insaneGames <= 180000 && a.insaneWins <= 190000
    && a.blank3Placeholder <= 200000 && a.timeGames <= 210000
    && a.timeWins <= 220000 && a.minigameHighScore <= 230000
    && a.timeHighScore <= 240000
    && a.cameraDistance <= 1000 && a.cameraRotation <= 1001
    && a.cameraAngle <= 1002 && a.cameraFollow <= 1003
    && a.hideTips <= 1004 && a.hideHud <= 1005 && a.hideMinimap <= 1006
    && a.hideEnergyBar <= 1007 && a.hideExperienceBar <= 1008
    && a.hideMenu <= 1009 && a.wasdMovement <= 1010
    && a.increaseDistanceSkill <= 10 && a.decreaseDistanceSkill <= 11
    && a.rotateRightSkill <= 12 && a.rotateLeftSkill <= 13
    && a.followRunlingSkill <= 14
  }

  lemma AccountWithin(a: Account)
    requires AccountWithinMaxima(a)
    ensures InRange(AccountFields(a), AccountMaxVals)
  {
    forall i | 0 <= i < |AccountMaxVals|
      ensures AccountFields(a)[i] <= AccountMaxVals[i]
    {
      if i < 11 {
        AccountWithinLow(a, i);
      } else if i < 22 {
        AccountWithinMid(a, i);
      } else {
        AccountWithinHigh(a, i);
      }
    }
  }

  /** The bounds of the fields before `insaneWins`. */
  lemma AccountWithinLow(a: Account, i: nat)
    requires AccountWithinMaxima(a) && i < 11
    ensures AccountFields(a)[i] <= AccountMaxVals[i]
  {
    match i
    case 0 => case 1 => case 2 => case 3 => case 4 => case 5 => case 6 => case 7 => case 8 => case 9 => case _ =>
  }

  /** The bounds of the fields from `insaneWins` to `hideTips`. */
  lemma AccountWithinMid(a: Account, i: nat)
    requires AccountWithinMaxima(a) && 11 <= i < 22
    ensures AccountFields(a)[i] <= AccountMaxVals[i]
  {
    match i
    case 11 => case 12 => case 13 => case 14 => case 15 => case 16 => case 17 => case 18 => case 19 => case 20 => case _ =>
  }

  /** The bounds of the fields from `hideHud` on. */
  lemma AccountWithinHigh(a: Account, i: nat)
    requires AccountWithinMaxima(a) && 22 <= i < 33
    ensures AccountFields(a)[i] <= AccountMaxVals[i]
  {
    match i
    case 22 => case 23 => case 24 => case 25 => case 26 => case 27 => case 28 => case 29 => case 30 => case 31 => case _ =>
  }

  lemma AccountInRange(a: Account)
    requires InRange(AccountFields(a), AccountMaxVals)
    ensures AccountWithinMaxima(a)
  {
    var v := AccountFields(a);
    assert v[0] <= AccountMaxVals[0];
    assert v[1] <= AccountMaxVals[1];
    assert v[2] <= AccountMaxVals[2];
    assert v[3] <= AccountMaxVals[3];
    assert v[4] <= AccountMaxVals[4];
    assert v[5] <= AccountMaxVals[5];
    assert v[6] <= AccountMaxVals[6];
    assert v[7] <= AccountMaxVals[7];
    assert v[8] <= AccountMaxVals[8];
    assert v[9] <= AccountMaxVals[9];
    assert v[10] <= AccountMaxVals[10];
    assert v[11] <= AccountMaxVals[11];
    assert v[12] <= AccountMaxVals[12];
    assert v[13] <= AccountMaxVals[13];
    assert v[14] <= AccountMaxVals[14];
    assert v[15] <= AccountMaxVals[15];
    assert v[16] <= AccountMaxVals[16];
    assert v[17] <= AccountMaxVals[17];
    assert v[18] <= AccountMaxVals[18];
    assert v[19] <= AccountMaxVals[19];
    assert v[20] <= AccountMaxVals[20];
    assert v[21] <= AccountMaxVals[21];
    assert v[22] <= AccountMaxVals[22];
    assert v[23] <= AccountMaxVals[23];
    assert v[24] <= AccountMaxVals[24];
    assert v[25] <= AccountMaxVals[25];
    assert v[26] <= AccountMaxVals[26];
    assert v[27] <= AccountMaxVals[27];
    assert v[28] <= AccountMaxVals[28];
    assert v[29] <= AccountMaxVals[29];
    assert v[30] <= AccountMaxVals[30];
    assert v[31] <= AccountMaxVals[31];
    assert v[32] <= AccountMaxVals[32];
  }

  /** The table pairs every field with its own maximum. */
  lemma AccountTableMatches(a: Account)
    ensures InRange(AccountFields(a), AccountMaxVals) <==> AccountWithinMaxima(a)
  {
    if AccountWithinMaxima(a) {
      AccountWithin(a);
    }
    if InRange(AccountFields(a), AccountMaxVals) {
      AccountInRange(a);
    }
  }


  /** What `Account::to_data` returns. */
  function EncodedAccount(a: Account): Result<string> {
    EncodedFields(AccountFields(a), AccountMaxVals)
  }

  /** What `Account::from_data` returns. */
  function DecodedAccount(blob: string): Result<Account> {
    match DecodedFields(blob, AccountMaxVals)
    case Err(e) => Err(e)
    case Ok(v) => Ok(AccountOfFields(v))
  }

  /** `Account::to_data`. */
  method AccountToData(a: Account) returns (r: Result<string>)
    ensures r == EncodedAccount(a)
  {
    r := EncodeFields(AccountFields(a), AccountMaxVals);
  }

  /** `Account::from_data`. */
  method AccountFromData(blob: string) returns (r: Result<Account>)
    ensures r == DecodedAccount(blob)
  {
    var v := DecodeFields(blob, AccountMaxVals);
    if v.Err? {
      return Err(v.error);
    }
    r := Ok(AccountOfFields(v.value));
  }

  /** `to_data` succeeds exactly on accounts within every maximum, and
      `from_data` then gives the account back. */
  lemma AccountRoundTrip(a: Account)
    ensures EncodedAccount(a).Ok? <==> AccountWithinMaxima(a)
    ensures EncodedAccount(a).Ok? ==> DecodedAccount(EncodedAccount(a).value) == Ok(a)
  {
    AccountTableMatches(a);
    DecodeEncoded(AccountFields(a), AccountMaxVals);
  }

  /** Every account `from_data` produces is within the maxima. */
  lemma DecodedAccountWithinMaxima(blob: string)
    ensures DecodedAccount(blob).Ok? ==> AccountWithinMaxima(DecodedAccount(blob).value)
  {
    if DecodedAccount(blob).Ok? {
      var v := DecodedFields(blob, AccountMaxVals).value;
      AccountFieldsRoundTrip(AccountOfFields(v), v);
      AccountTableMatches(AccountOfFields(v));
    }
  }

  /** A blob with no leftover and no leading zero digit is re-encoded to
      itself. */
  lemma AccountBlobRoundTrip(blob: string)
    requires IsAlphabetString(blob)
    requires Decrypted(blob) == "" || Decrypted(blob)[0] != '0'
    requires Unpacked(Unscrambled(blob), AccountMaxVals).1 == 0
    ensures DecodedAccount(blob).Ok?
    ensures EncodedAccount(DecodedAccount(blob).value) == Ok(blob)
  {
    EncodeDecoded(blob, AccountMaxVals);
    var v := DecodedFields(blob, AccountMaxVals).value;
    var a := AccountOfFields(v);
    assert DecodedAccount(blob) == Ok(a);
    AccountFieldsRoundTrip(a, v);
    assert EncodedAccount(a) == EncodedFields(v, AccountMaxVals);
  }

  /** A blob that unpacks with a nonzero leftover above the fields is
      accepted by `from_data`, but `to_data` of the account it gives is a
      different blob: the leftover is lost. */
  lemma AccountLeftoverBlocksReencode(blob: string)
    requires IsAlphabetString(blob)
    requires Unpacked(Unscrambled(blob), AccountMaxVals).1 != 0
    ensures DecodedAccount(blob).Ok?
    ensures EncodedAccount(DecodedAccount(blob).value) != Ok(blob)
  {
    var v := DecodedFields(blob, AccountMaxVals).value;
    AccountFieldsRoundTrip(AccountOfFields(v), v);
    DecodeEncoded(v, AccountMaxVals);
  }

  /** `Account::checksum`: the sum of the game counters and scores. */
  function AccountChecksum(a: Account): nat {
    Total([a.normalGames, a.normalWins, a.hardGames, a.hardWins, a.totalSaves,
      a.totalScore, a.totalDeaths, a.bot2000Kills, a.odinKills,
      a.diabloKills, a.timeGames, a.timeWins, a.minigameHighScore,
      a.timeHighScore])
  }

  /** The sum of a list of counters. */
  function Total(s: seq<nat>): nat
    decreases |s|
  {
    if s == [] then 0 else s[0] + Total(s[1..])
  }

  /** The insane-mode counters, the placeholder, the camera and interface
      settings and the camera skills do not enter the checksum. */
  lemma AccountChecksumIgnoresSettings(a: Account, b: Account)
    requires a.normalGames == b.normalGames && a.normalWins == b.normalWins
    requires a.hardGames == b.hardGames && a.hardWins == b.hardWins
    requires a.totalSaves == b.totalSaves && a.totalScore == b.totalScore
    requires a.totalDeaths == b.totalDeaths && a.bot2000Kills == b.bot2000Kills
    requires a.odinKills == b.odinKills && a.diabloKills == b.diabloKills
    requires a.timeGames == b.timeGames && a.timeWins == b.timeWins
    requires a.minigameHighScore == b.minigameHighScore && a.timeHighScore == b.timeHighScore
    ensures AccountChecksum(a) == AccountChecksum(b)
  {
  }

  datatype Runling = Runling(
    runlingClass: nat,
    experience: nat,
    energyRegeneration: nat,
    maximumEnergy: nat,
    speed: nat,
    skill1Level: nat,
    skill2Level: nat,
    runlingLevel: nat,
    remainingPoints: nat)

  /** `runling_max_vals`, in field declaration order. */
  const RunlingMaxVals: seq<nat> :=
    [300000, 8100000, 320000, 330000, 340000, 350000, 360000, 370000, 380000]

  function RunlingFields(r: Runling): (v: seq<nat>)
    ensures |v| == |RunlingMaxVals|
  {
    [r.runlingClass, r.experience, r.energyRegeneration, r.maximumEnergy, r.speed,
     r.skill1Level, r.skill2Level, r.runlingLevel, r.remainingPoints]
  }

  function RunlingOfFields(v: seq<nat>): Runling
    requires |v| == |RunlingMaxVals|
  {
    Runling(v[0], v[1], v[2], v[3], v[4], v[5], v[6], v[7], v[8])
  }

  lemma RunlingFieldsRoundTrip(r: Runling, v: seq<nat>)
    requires |v| == |RunlingMaxVals|
    ensures RunlingOfFields(RunlingFields(r)) == r
    ensures RunlingFields(RunlingOfFields(v)) == v
  {
  }

  predicate RunlingWithinMaxima(r: Runling) {
    && r.runlingClass <= 300000 && r.experience <= 8100000
    && r.energyRegeneration <= 320000 && r.maximumEnergy <= 330000
    && r.speed <= 340000 && r.skill1Level <= 350000
    && r.skill2Level <= 360000 && r.runlingLevel <= 370000
    && r.remainingPoints <= 380000
  }

  lemma RunlingWithin(r: Runling)
    requires RunlingWithinMaxima(r)
    ensures InRange(RunlingFields(r), RunlingMaxVals)
  {
    var v := RunlingFields(r);
    forall i | 0 <= i < |v|
      ensures v[i] <= RunlingMaxVals[i]
    {
      match i
      case 0 => case 1 => case 2 => case 3 => case 4 => case 5 => case 6 => case 7 =>
      case _ =>
    }
  }

  lemma RunlingInRange(r: Runling)
    requires InRange(RunlingFields(r), RunlingMaxVals)
    ensures RunlingWithinMaxima(r)
  {
    var v := RunlingFields(r);
    assert v[0] <= RunlingMaxVals[0];
    assert v[1] <= RunlingMaxVals[1];
    assert v[2] <= RunlingMaxVals[2];
    assert v[3] <= RunlingMaxVals[3];
    assert v[4] <= RunlingMaxVals[4];
    assert v[5] <= RunlingMaxVals[5];
    assert v[6] <= RunlingMaxVals[6];
    assert v[7] <= RunlingMaxVals[7];
    assert v[8] <= RunlingMaxVals[8];
  }

  /** The table pairs every field with its own maximum. */
  lemma RunlingTableMatches(r: Runling)
    ensures InRange(RunlingFields(r), RunlingMaxVals) <==> RunlingWithinMaxima(r)
  {
    if RunlingWithinMaxima(r) {
      RunlingWithin(r);
    }
    if InRange(RunlingFields(r), RunlingMaxVals) {
      RunlingInRange(r);
    }
  }


  /** What `Runling::to_data` returns. */
  function EncodedRunling(r: Runling): Result<string> {
    EncodedFields(RunlingFields(r), RunlingMaxVals)
  }

  /** What `Runling::from_data` returns. */
  function DecodedRunling(blob: string): Result<Runling> {
    match DecodedFields(blob, RunlingMaxVals)
    case Err(e) => Err(e)
    case Ok(v) => Ok(RunlingOfFields(v))
  }

  /** `Runling::to_data`. */
  method RunlingToData(r: Runling) returns (res: Result<string>)
    ensures res == EncodedRunling(r)
  {
    res := EncodeFields(RunlingFields(r), RunlingMaxVals);
  }

  /** `Runling::from_data`. */
  method RunlingFromData(blob: string) returns (res: Result<Runling>)
    ensures res == DecodedRunling(blob)
  {
    var v := DecodeFields(blob, RunlingMaxVals);
    if v.Err? {
      return Err(v.error);
    }
    res := Ok(RunlingOfFields(v.value));
  }

  lemma RunlingRoundTrip(r: Runling)
    ensures EncodedRunling(r).Ok? <==> RunlingWithinMaxima(r)
    ensures EncodedRunling(r).Ok? ==> DecodedRunling(EncodedRunling(r).value) == Ok(r)
  {
    RunlingTableMatches(r);
    DecodeEncoded(RunlingFields(r), RunlingMaxVals);
  }

  lemma DecodedRunlingWithinMaxima(blob: string)
    ensures DecodedRunling(blob).Ok? ==> RunlingWithinMaxima(DecodedRunling(blob).value)
  {
    if DecodedRunling(blob).Ok? {
      var v := DecodedFields(blob, RunlingMaxVals).value;
      RunlingFieldsRoundTrip(RunlingOfFields(v), v);
      RunlingTableMatches(RunlingOfFields(v));
    }
  }

  lemma RunlingBlobRoundTrip(blob: string)
    requires IsAlphabetString(blob)
    requires Decrypted(blob) == "" || Decrypted(blob)[0] != '0'
    requires Unpacked(Unscrambled(blob), RunlingMaxVals).1 == 0
    ensures DecodedRunling(blob).Ok?
    ensures EncodedRunling(DecodedRunling(blob).value) == Ok(blob)
  {
    EncodeDecoded(blob, RunlingMaxVals);
    var v := DecodedFields(blob, RunlingMaxVals).value;
    var r := RunlingOfFields(v);
    assert DecodedRunling(blob) == Ok(r);
    RunlingFieldsRoundTrip(r, v);
    assert EncodedRunling(r) == EncodedFields(v, RunlingMaxVals);
  }

  /** The same for runlings: a nonzero leftover is lost on re-encoding. */
  lemma RunlingLeftoverBlocksReencode(blob: string)
    requires IsAlphabetString(blob)
    requires Unpacked(Unscrambled(blob), RunlingMaxVals).1 != 0
    ensures DecodedRunling(blob).Ok?
    ensures EncodedRunling(DecodedRunling(blob).value) != Ok(blob)
  {
    var v := DecodedFields(blob, RunlingMaxVals).value;
    RunlingFieldsRoundTrip(RunlingOfFields(v), v);
    DecodeEncoded(v, RunlingMaxVals);
  }

  /** `Runling::checksum` of src/model.rs. */
  function RunlingChecksum(r: Runling): nat {
    r.remainingPoints + r.energyRegeneration + r.speed + r.maximumEnergy
    + r.skill1Level + r.skill2Level + r.experience
  }

  /** The class and the level of a runling do not enter its checksum. */
  lemma RunlingChecksumIgnoresClassAndLevel(r: Runling, cls: nat, level: nat)
    ensures RunlingChecksum(r.(runlingClass := cls, runlingLevel := level)) == RunlingChecksum(r)
  {
  }
}
