/** The bank file (src/bank.rs): a `Bank` holds up to eight runlings, the
    account and the player handle; it is written as two XML sections,
    "unit" and "account", plus a signature over a canonical byte stream,
    and read back by looking the keys up by name. */
module BankFile {
  import opened Results
  import opened Starcode
  import opened FieldTable
  import opened Records
  import opened CameraBlob
  import opened NameOrder

  /** A `<Key name=..><Value string=../></Key>` element; the `Value`
      wrapper struct is folded into `value`. */
  datatype Key = Key(name: string, value: string)

  datatype Section = Section(name: string, keys: seq<Key>)

  /** The `<Bank>` document: version, its two sections, the signature. */
  datatype XmlBank = XmlBank(version: nat, section: (Section, Section), signature: string)

  /** The fixed array of eight unit slots. */
  type Units = s: seq<Option<Runling>> | |s| == 8
    witness [None, None, None, None, None, None, None, None]

  datatype Bank = Bank(units: Units, account: Account, playerHandle: nat)

  function KeyName(k: Key): string { k.name }

  function SectionName(s: Section): string { s.name }

  // ---------------------------------------------------------------------
  // The hidden player handle

  /** `units.iter().flatten().map(|r| r.checksum()).sum()`. */
  function OccupiedSum(units: seq<Option<Runling>>): nat
    decreases |units|
  {
    if units == [] then 0
    else
      var n := |units| - 1;
      OccupiedSum(units[..n]) + (if units[n].Some? then RunlingChecksum(units[n].value) else 0)
  }

  /** What `Bank::generate_camera_checksum` returns: the handle is added
      once to the sum over the occupied slots. */
  function BankCameraChecksum(b: Bank): Result<string> {
    CameraChecksum(AccountChecksum(b.account), OccupiedSum(b.units) + b.playerHandle)
  }

  /** `Bank::generate_camera_checksum`. */
  method GenerateBankCameraChecksum(b: Bank) returns (r: Result<string>)
    ensures r == BankCameraChecksum(b)
  {
    r := GenerateCameraChecksum(AccountChecksum(b.account), OccupiedSum(b.units) + b.playerHandle);
  }

  /** What `derive_player_handle` returns: the stored sum less the sum
      over the occupied slots; the unsigned subtraction panics when the
      stored sum is the smaller. */
  function DerivedPlayerHandle(blob: string, units: seq<Option<Runling>>): (r: Result<nat>)
    ensures r.Ok? ==> StoredUnitSum(blob) == Ok(OccupiedSum(units) + r.value)
    ensures r == Err(ChecksumUnderflow) <==>
      StoredUnitSum(blob).Ok? && StoredUnitSum(blob).value < OccupiedSum(units)
  {
    match StoredUnitSum(blob)
    case Err(e) => Err(e)
    case Ok(stored) =>
      if stored < OccupiedSum(units) then Err(ChecksumUnderflow) else Ok(stored - OccupiedSum(units))
  }

  /** `derive_player_handle`. */
  method DerivePlayerHandle(blob: string, units: seq<Option<Runling>>) returns (r: Result<nat>)
    ensures r == DerivedPlayerHandle(blob, units)
  {
    var stored := ReadStoredUnitSum(blob);
    if stored.Err? {
      return Err(stored.error);
    }
    var sum := OccupiedSum(units);
    if stored.value < sum {
      return Err(ChecksumUnderflow);
    }
    r := Ok(stored.value - sum);
  }

  /** The camera checksum is written exactly when both sums fit. */
  lemma BankCameraChecksumAccepted(b: Bank)
    ensures BankCameraChecksum(b).Ok? <==>
      AccountChecksum(b.account) <= AccountSumMax && OccupiedSum(b.units) + b.playerHandle <= UnitSumMax
  {
    StoredUnitSumOfChecksum(AccountChecksum(b.account), OccupiedSum(b.units) + b.playerHandle);
  }

  /** The handle is recovered from the camera checksum for every occupancy
      pattern, the empty bank included. */
  lemma PlayerHandleRecovered(b: Bank)
    requires BankCameraChecksum(b).Ok?
    ensures DerivedPlayerHandle(BankCameraChecksum(b).value, b.units) == Ok(b.playerHandle)
  {
    StoredUnitSumOfChecksum(AccountChecksum(b.account), OccupiedSum(b.units) + b.playerHandle);
    PlayerHandleFromStored(BankCameraChecksum(b).value, b.units, b.playerHandle);
  }

  lemma PlayerHandleFromStored(blob: string, units: seq<Option<Runling>>, h: nat)
    requires StoredUnitSum(blob) == Ok(OccupiedSum(units) + h)
    ensures DerivedPlayerHandle(blob, units) == Ok(h)
  {
  }

  // ---------------------------------------------------------------------
  // The unit slot occupancy blob

  /** The maxima `425 + unit_index` of the eight slot flags. */
  const SlotMaxVals: seq<nat> := [425, 426, 427, 428, 429, 430, 431, 432]

  /** 1 for an occupied slot, 0 for an empty one. */
  function SlotFlags(units: Units): (f: seq<nat>)
    ensures |f| == 8
    ensures forall i :: 0 <= i < 8 ==> f[i] <= 1 && (f[i] == 1 <==> units[i].Some?)
  {
    seq(8, i requires 0 <= i < 8 => if units[i].Some? then 1 else 0)
  }

  lemma SlotFlagsInRange(units: Units)
    ensures InRange(SlotFlags(units), SlotMaxVals)
  {
  }

  /** What `Bank::generate_unit_slots_data` returns. A flag never exceeds
      its maximum, so it cannot fail. */
  function UnitSlotsData(units: Units): string {
    SlotFlagsInRange(units);
    EncodedFields(SlotFlags(units), SlotMaxVals).value
  }

  /** The `store_int` loop of `Bank::generate_unit_slots_data`: slot
      `unit_index` stores its flag with maximum `425 + unit_index`. */
  method StoreSlotFlags(units: Units) returns (data: nat)
    ensures data == Packed(0, SlotFlags(units), SlotMaxVals)
  {
    var flags := SlotFlags(units);
    SlotFlagsInRange(units);
    data := 0;
    for unitIndex := 0 to 8
      invariant InRange(flags[..unitIndex], SlotMaxVals[..unitIndex])
      invariant data == Packed(0, flags[..unitIndex], SlotMaxVals[..unitIndex])
    {
      var val := if units[unitIndex].Some? then 1 else 0;
      var maxVal := 425 + unitIndex;
      var next := StoreInt(data, val, maxVal);
      assert flags[..unitIndex + 1][..unitIndex] == flags[..unitIndex];
      assert SlotMaxVals[..unitIndex + 1][..unitIndex] == SlotMaxVals[..unitIndex];
      data := next.value;
    }
    assert flags[..8] == flags && SlotMaxVals[..8] == SlotMaxVals;
  }

  /** `Bank::generate_unit_slots_data`. */
  method GenerateUnitSlotsData(units: Units) returns (s: string)
    ensures s == UnitSlotsData(units)
  {
    SlotFlagsInRange(units);
    var data := StoreSlotFlags(units);
    var numeral := Compress(data);
    s := Encrypt(numeral);
  }

  /** Extracting with maxima 432 down to 425 recovers the flags of slots 7
      down to 0, leaving nothing over. */
  lemma UnitSlotsRecovered(units: Units)
    ensures DecodedFields(UnitSlotsData(units), SlotMaxVals) == Ok(SlotFlags(units))
    ensures Unpacked(Unscrambled(UnitSlotsData(units)), SlotMaxVals).1 == 0
  {
    SlotFlagsInRange(units);
    DecodeEncoded(SlotFlags(units), SlotMaxVals);
  }

  // ---------------------------------------------------------------------
  // Key names and decimal text

  function DecimalDigit(d: nat): char
    requires d < 10
  {
    ('0' as int + d) as char
  }

  predicate IsDecimal(s: string) {
    forall i :: 0 <= i < |s| ==> '0' <= s[i] <= '9'
  }

  /** `usize::to_string`: the decimal numeral of `n`, most significant
      digit first. */
  function Decimal(n: nat): (s: string)
    ensures |s| >= 1 && IsDecimal(s)
    decreases n
  {
    if n < 10 then [DecimalDigit(n)] else Decimal(n / 10) + [DecimalDigit(n % 10)]
  }

  /** The value of a decimal numeral. */
  function DecimalValue(s: string): nat
    requires IsDecimal(s)
    decreases |s|
  {
    if s == [] then 0
    else DecimalValue(s[..|s| - 1]) * 10 + (s[|s| - 1] as int - '0' as int)
  }

  /** `to_string` is read back by its value and has no leading zero. */
  lemma {:induction false} DecimalRoundTrip(n: nat)
    ensures DecimalValue(Decimal(n)) == n
    ensures Decimal(n)[0] == '0' ==> n == 0
    decreases n
  {
    if n >= 10 {
      DecimalRoundTrip(n / 10);
      var s := Decimal(n);
      assert s[..|s| - 1] == Decimal(n / 10);
    }
  }

  /** `format!("0{unit_index}")`. */
  function SlotKeyName(k: nat): string {
    "0" + Decimal(k)
  }

  /** The slot keys are "01" to "08": two characters each, pairwise
      distinct, never "info" or "camera", and ordered like their slots. */
  lemma SlotKeyNames(k: nat, k': nat)
    requires 1 <= k <= 8 && 1 <= k' <= 8
    ensures SlotKeyName(k) == ['0', DecimalDigit(k)]
    ensures SlotKeyName(k) != "info" && SlotKeyName(k) != "camera"
    ensures k != k' ==> SlotKeyName(k) != SlotKeyName(k')
    ensures k < k' ==> NameLe(SlotKeyName(k), SlotKeyName(k')) && NameLe(SlotKeyName(k), "info")
  {
    assert SlotKeyName(k) == ['0', DecimalDigit(k)];
    assert SlotKeyName(k') == ['0', DecimalDigit(k')];
    if k != k' {
      assert SlotKeyName(k)[1] != SlotKeyName(k')[1];
    }
  }

  // ---------------------------------------------------------------------
  // The signature pre-image

  const HandlePrefixNa: string := "1-S2-1-"
  const AuthorHandleNa: nat := 417073
  const BankFilename: string := "RunlingRun004"

  /** The five updates made before any section. */
  function Preamble(handle: nat): string {
    HandlePrefixNa + Decimal(AuthorHandleNa) + HandlePrefixNa + Decimal(handle) + BankFilename
  }

  /** The updates made for one key. */
  function KeyBytes(k: Key): string {
    k.name + "Value" + "string" + k.value
  }

  function KeysBytes(keys: seq<Key>): string
    decreases |keys|
  {
    if keys == [] then ""
    else KeysBytes(keys[..|keys| - 1]) + KeyBytes(keys[|keys| - 1])
  }

  /** The updates made for one section: its name, then its keys in name
      order. */
  function SectionBytes(s: Section): string {
    s.name + KeysBytes(SortByName(s.keys, KeyName))
  }

  function SectionsBytes(sections: seq<Section>): string
    decreases |sections|
  {
    if sections == [] then ""
    else SectionsBytes(sections[..|sections| - 1]) + SectionBytes(sections[|sections| - 1])
  }

  /** Everything `compute_signature` feeds to the hasher: the preamble,
      then the sections in name order. */
  function SignaturePreImage(handle: nat, sections: seq<Section>): string {
    Preamble(handle) + SectionsBytes(SortByName(sections, SectionName))
  }

  /** `compute_signature`. The hasher is modelled by the text it has been
      fed so far and `digest` stands for SHA-1 with upper-case hex; feeding
      SHA-1 piecewise hashes the concatenation. */
  method ComputeSignature(digest: string -> string, handle: nat, sections: seq<Section>) returns (sig: string)
    ensures sig == digest(SignaturePreImage(handle, sections))
  {
    var hashed := HandlePrefixNa;
    hashed := hashed + Decimal(AuthorHandleNa);
    hashed := hashed + HandlePrefixNa;
    hashed := hashed + Decimal(handle);
    hashed := hashed + BankFilename;
    var sorted := SortByName(sections, SectionName);
    for i := 0 to |sorted|
      invariant hashed == Preamble(handle) + SectionsBytes(sorted[..i])
    {
      hashed := HashSection(hashed, sorted[i]);
      SectionsBytesStep(Preamble(handle), sorted, i);
    }
    assert sorted[..|sorted|] == sorted;
    sig := digest(hashed);
  }

  /** One more section extends the signed bytes by that section's. */
  lemma SectionsBytesStep(prefix: string, sections: seq<Section>, i: nat)
    requires i < |sections|
    ensures prefix + SectionsBytes(sections[..i + 1])
      == (prefix + SectionsBytes(sections[..i])) + SectionBytes(sections[i])
  {
    assert sections[..i + 1][..i] == sections[..i];
  }

  /** The updates of `compute_signature` for one section. */
  method HashSection(hashed: string, section: Section) returns (r: string)
    ensures r == hashed + SectionBytes(section)
  {
    r := hashed + section.name;
    r := HashKeys(r, SortByName(section.keys, KeyName));
    assert (hashed + section.name) + KeysBytes(SortByName(section.keys, KeyName))
      == hashed + (section.name + KeysBytes(SortByName(section.keys, KeyName)));
  }

  /** The inner loop of `compute_signature`: the updates for each key of
      an already sorted section. */
  method HashKeys(hashed: string, keys: seq<Key>) returns (r: string)
    ensures r == hashed + KeysBytes(keys)
  {
    r := hashed;
    for j := 0 to |keys|
      invariant r == hashed + KeysBytes(keys[..j])
    {
      var key := keys[j];
      r := r + key.name;
      r := r + "Value";
      r := r + "string";
      r := r + key.value;
      assert keys[..j + 1][..j] == keys[..j];
    }
    assert keys[..|keys|] == keys;
  }

  /** With unique section names, the order in which sections are given
      does not change the signed bytes. */
  lemma PreImageIgnoresSectionOrder(handle: nat, a: seq<Section>, b: seq<Section>)
    requires multiset(a) == multiset(b)
    requires UniqueNames(a, SectionName)
    ensures SignaturePreImage(handle, a) == SignaturePreImage(handle, b)
  {
    SortIgnoresOrder(a, b, SectionName);
  }

  /** With unique key names, the order of a section's keys does not change
      its signed bytes. */
  lemma SectionBytesIgnoresKeyOrder(s: Section, t: Section)
    requires s.name == t.name
    requires multiset(s.keys) == multiset(t.keys)
    requires UniqueNames(s.keys, KeyName)
    ensures SectionBytes(s) == SectionBytes(t)
  {
    SortIgnoresOrder(s.keys, t.keys, KeyName);
  }

  // ---------------------------------------------------------------------
  // From<Bank> for XmlBank

  /** The unit keys pushed for slots 1 to `n`: `"0k"` for each occupied
      slot `k`, in slot order. */
  function UnitKeys(units: Units, n: nat): Result<seq<Key>>
    requires n <= 8
    decreases n
  {
    if n == 0 then Ok([])
    else
      match UnitKeys(units, n - 1)
      case Err(e) => Err(e)
      case Ok(keys) =>
        if units[n - 1].None? then Ok(keys)
        else
          match EncodedRunling(units[n - 1].value)
          case Err(e) => Err(e)
          case Ok(blob) => Ok(keys + [Key(SlotKeyName(n), blob)])
  }

  /** The "unit" section: the slot keys, then "info" with the occupancy
      blob. */
  function UnitSection(units: Units): Result<Section> {
    match UnitKeys(units, 8)
    case Err(e) => Err(e)
    case Ok(keys) => Ok(Section("unit", keys + [Key("info", UnitSlotsData(units))]))
  }

  /** The "account" section: "camera" with the camera checksum, then "info"
      with the account record. */
  function AccountSection(b: Bank): Result<Section> {
    match EncodedAccount(b.account)
    case Err(e) => Err(e)
    case Ok(info) =>
      match BankCameraChecksum(b)
      case Err(e) => Err(e)
      case Ok(camera) => Ok(Section("account", [Key("camera", camera), Key("info", info)]))
  }

  /** What `From<Bank> for XmlBank` builds. */
  function XmlOfBank(digest: string -> string, b: Bank): Result<XmlBank> {
    match UnitSection(b.units)
    case Err(e) => Err(e)
    case Ok(unit) =>
      match AccountSection(b)
      case Err(e) => Err(e)
      case Ok(account) =>
        Ok(XmlBank(1, (unit, account), digest(SignaturePreImage(b.playerHandle, [unit, account]))))
  }

  /** Once a slot fails to encode, the unit keys stay failed. */
  lemma {:induction false} UnitKeysFailureStays(units: Units, k: nat, n: nat)
    requires k <= n <= 8
    requires UnitKeys(units, k).Err?
    ensures UnitKeys(units, n) == UnitKeys(units, k)
    decreases n
  {
    if n > k {
      UnitKeysFailureStays(units, k, n - 1);
    }
  }

  /** `From<Bank> for XmlBank`. */
  method BankToXml(digest: string -> string, b: Bank) returns (r: Result<XmlBank>)
    ensures r == XmlOfBank(digest, b)
  {
    var unitKeys: seq<Key> := [];
    for unitIndex := 1 to 9
      invariant UnitKeys(b.units, unitIndex - 1) == Ok(unitKeys)
    {
      if b.units[unitIndex - 1].Some? {
        var unitString := RunlingToData(b.units[unitIndex - 1].value);
        if unitString.Err? {
          UnitKeysFailureStays(b.units, unitIndex, 8);
          return Err(unitString.error);
        }
        unitKeys := unitKeys + [Key("0" + Decimal(unitIndex), unitString.value)];
      }
    }
    var slots := GenerateUnitSlotsData(b.units);
    var unitSection := Section("unit", unitKeys + [Key("info", slots)]);

    var accountInfo := AccountToData(b.account);
    if accountInfo.Err? {
      return Err(accountInfo.error);
    }
    var accountCamera := GenerateBankCameraChecksum(b);
    if accountCamera.Err? {
      return Err(accountCamera.error);
    }
    var accountSection := Section("account",
      [Key("camera", accountCamera.value), Key("info", accountInfo.value)]);

    var signature := ComputeSignature(digest, b.playerHandle, [unitSection, accountSection]);
    r := Ok(XmlBank(1, (unitSection, accountSection), signature));
  }

  // ---------------------------------------------------------------------
  // From<XmlBank> for Bank

  /** `keys.iter().find(|key| key.name == name)`, giving the value: the
      first key with that name, if any. */
  function FindKey(keys: seq<Key>, name: string): (r: Option<string>)
    ensures r.None? <==> forall i :: 0 <= i < |keys| ==> keys[i].name != name
    ensures r.Some? ==> Key(name, r.value) in keys
    decreases |keys|
  {
    if keys == [] then None
    else if keys[0].name == name then Some(keys[0].value)
    else
      assert forall i :: 0 < i < |keys| ==> keys[i] == keys[1..][i - 1];
      FindKey(keys[1..], name)
  }

  /** The key found is the first one with that name. */
  lemma {:induction false} FindKeyFirst(keys: seq<Key>, name: string, i: nat)
    requires i < |keys| && keys[i].name == name
    requires forall j :: 0 <= j < i ==> keys[j].name != name
    ensures FindKey(keys, name) == Some(keys[i].value)
    decreases i
  {
    if i > 0 {
      FindKeyFirst(keys[1..], name, i - 1);
    }
  }

  /** Looking a name up in a concatenation looks in the front part first. */
  lemma {:induction false} FindKeyAppend(a: seq<Key>, b: seq<Key>, name: string)
    ensures FindKey(a + b, name) == if FindKey(a, name).Some? then FindKey(a, name) else FindKey(b, name)
    decreases |a|
  {
    if a != [] {
      assert (a + b)[1..] == a[1..] + b;
      FindKeyAppend(a[1..], b, name);
    } else {
      assert a + b == b;
    }
  }

  /** The `.unwrap()` of a key lookup. */
  function Required(v: Option<string>): (r: Result<string>)
    ensures r.Ok? <==> v.Some?
    ensures v.Some? ==> r.value == v.value
  {
    if v.Some? then Ok(v.value) else Err(MissingKey)
  }

  /** The slots 1 to `n` read back: a runling where key `"0k"` exists,
      an empty slot where it does not. */
  function DecodedUnits(keys: seq<Key>, n: nat): (r: Result<seq<Option<Runling>>>)
    requires n <= 8
    ensures r.Ok? ==> |r.value| == n
    decreases n
  {
    if n == 0 then Ok([])
    else
      match DecodedUnits(keys, n - 1)
      case Err(e) => Err(e)
      case Ok(prev) =>
        match FindKey(keys, SlotKeyName(n))
        case None => Ok(prev + [None])
        case Some(data) =>
          match DecodedRunling(data)
          case Err(e) => Err(e)
          case Ok(r) => Ok(prev + [Some(r)])
  }

  /** The sections named "unit" and "account", first as given or else
      swapped. */
  function UnitAndAccount(x: XmlBank): (Section, Section) {
    if x.section.0.name == "unit" then x.section else (x.section.1, x.section.0)
  }

  /** What `From<XmlBank> for Bank` returns. */
  function BankOfXml(x: XmlBank): Result<Bank> {
    var (unit, account) := UnitAndAccount(x);
    if unit.name != "unit" || account.name != "account" then Err(WrongSectionName)
    else
      match FindKey(account.keys, "camera")
      case None => Err(MissingKey)
      case Some(camera) =>
        match FindKey(account.keys, "info")
        case None => Err(MissingKey)
        case Some(info) =>
          match DecodedAccount(info)
          case Err(e) => Err(e)
          case Ok(acct) =>
            match DecodedUnits(unit.keys, 8)
            case Err(e) => Err(e)
            case Ok(units) =>
              match DerivedPlayerHandle(camera, units)
              case Err(e) => Err(e)
              case Ok(handle) => Ok(Bank(units, acct, handle))
  }

  /** `From<XmlBank> for Bank`: the slots are filled in place in an array
      of eight, initially all empty. */
  method XmlToBank(x: XmlBank) returns (r: Result<Bank>)
    ensures r == BankOfXml(x)
  {
    var (unitSection, accountSection) := UnitAndAccount(x);
    if unitSection.name != "unit" || accountSection.name != "account" {
      return Err(WrongSectionName);
    }
    var checksum := Required(FindKey(accountSection.keys, "camera"));
    if checksum.Err? {
      return Err(checksum.error);
    }
    var info := Required(FindKey(accountSection.keys, "info"));
    if info.Err? {
      return Err(info.error);
    }
    var account := AccountFromData(info.value);
    if account.Err? {
      return Err(account.error);
    }

    var units := ReadUnits(unitSection.keys);
    if units.Err? {
      return Err(units.error);
    }
    var playerHandle := DerivePlayerHandle(checksum.value, units.value);
    if playerHandle.Err? {
      return Err(playerHandle.error);
    }
    r := Ok(Bank(units.value, account.value, playerHandle.value));
  }

  /** The slot loop of `From<XmlBank> for Bank`: an array of eight empty
      slots, filled in place from keys "01" to "08". */
  method ReadUnits(keys: seq<Key>) returns (r: Result<Units>)
    ensures r == DecodedUnits(keys, 8)
  {
    var units := new Option<Runling>[8](_ => None);
    for runlingIndex := 1 to 9
      invariant DecodedUnits(keys, runlingIndex - 1).Ok?
      invariant units[..runlingIndex - 1] == DecodedUnits(keys, runlingIndex - 1).value
      invariant forall j :: runlingIndex - 1 <= j < 8 ==> units[j] == None
    {
      ghost var before := units[..];
      var runlingInfo := FindKey(keys, "0" + Decimal(runlingIndex));
      if runlingInfo.Some? {
        var runling := RunlingFromData(runlingInfo.value);
        if runling.Err? {
          DecodedUnitsFailureStays(keys, runlingIndex, 8);
          return Err(runling.error);
        }
        units[runlingIndex - 1] := Some(runling.value);
      }
      assert units[..] == before[runlingIndex - 1 := units[runlingIndex - 1]];
      SlotSet(before, runlingIndex - 1, units[runlingIndex - 1]);
      DecodedUnitsNext(keys, runlingIndex);
    }
    assert units[..] == units[..8];
    r := Ok(units[..]);
  }

  /** Setting slot `i` extends the prefix before it by that slot and keeps
      the slots after it. */
  lemma SlotSet(s: seq<Option<Runling>>, i: nat, v: Option<Runling>)
    requires i < |s|
    ensures s[i := v][..i + 1] == s[..i] + [v]
    ensures forall j :: i < j < |s| ==> s[i := v][j] == s[j]
  {
  }

  /** One more slot of `DecodedUnits`, when the slots before it decoded. */
  lemma DecodedUnitsNext(keys: seq<Key>, n: nat)
    requires 1 <= n <= 8 && DecodedUnits(keys, n - 1).Ok?
    ensures FindKey(keys, SlotKeyName(n)).None? ==>
      DecodedUnits(keys, n) == Ok(DecodedUnits(keys, n - 1).value + [None])
    ensures FindKey(keys, SlotKeyName(n)).Some? && DecodedRunling(FindKey(keys, SlotKeyName(n)).value).Ok? ==>
      DecodedUnits(keys, n)
        == Ok(DecodedUnits(keys, n - 1).value + [Some(DecodedRunling(FindKey(keys, SlotKeyName(n)).value).value)])
  {
  }

  /** Once a slot fails to decode, the decoded units stay failed. */
  lemma {:induction false} DecodedUnitsFailureStays(keys: seq<Key>, k: nat, n: nat)
    requires k <= n <= 8
    requires DecodedUnits(keys, k).Err?
    ensures DecodedUnits(keys, n) == DecodedUnits(keys, k)
    decreases n
  {
    if n > k {
      DecodedUnitsFailureStays(keys, k, n - 1);
    }
  }

  /** Every existing key among "01" to "0n" holds a valid runling. */
  predicate SlotKeysDecode(keys: seq<Key>, n: nat) {
    forall k :: 1 <= k <= n && FindKey(keys, SlotKeyName(k)).Some? ==>
      DecodedRunling(FindKey(keys, SlotKeyName(k)).value).Ok?
  }

  /** For any key list, the slots decode exactly when every existing slot
      key holds a valid runling. */
  lemma {:induction false} DecodedUnitsAccepted(keys: seq<Key>, n: nat)
    requires n <= 8
    ensures DecodedUnits(keys, n).Ok? <==> SlotKeysDecode(keys, n)
    decreases n
  {
    if n > 0 {
      DecodedUnitsAccepted(keys, n - 1);
      var found := FindKey(keys, SlotKeyName(n));
      if !SlotKeysDecode(keys, n - 1) {
        var k :| 1 <= k <= n - 1 && FindKey(keys, SlotKeyName(k)).Some?
          && DecodedRunling(FindKey(keys, SlotKeyName(k)).value).Err?;
        assert DecodedUnits(keys, n).Err?;
        assert !SlotKeysDecode(keys, n);
      } else if found.Some? && DecodedRunling(found.value).Err? {
        assert DecodedUnits(keys, n).Err?;
        assert !SlotKeysDecode(keys, n);
      } else {
        DecodedUnitsNext(keys, n);
        assert DecodedUnits(keys, n).Ok?;
        assert SlotKeysDecode(keys, n) by {
          forall k | 1 <= k <= n && FindKey(keys, SlotKeyName(k)).Some?
            ensures DecodedRunling(FindKey(keys, SlotKeyName(k)).value).Ok?
          {
            if k == n {
              assert FindKey(keys, SlotKeyName(k)) == found;
            }
          }
        }
      }
    }
  }

  /** For any key list whose slots decode, slot k is filled exactly when
      key "0k" exists, and then holds the runling that key decodes to. */
  lemma {:induction false} DecodedUnitsSlots(keys: seq<Key>, n: nat)
    requires n <= 8 && DecodedUnits(keys, n).Ok?
    ensures forall k :: 1 <= k <= n ==>
      (DecodedUnits(keys, n).value[k - 1].Some? <==> FindKey(keys, SlotKeyName(k)).Some?)
    ensures forall k :: 1 <= k <= n && FindKey(keys, SlotKeyName(k)).Some? ==>
      DecodedRunling(FindKey(keys, SlotKeyName(k)).value) == Ok(DecodedUnits(keys, n).value[k - 1].value)
    decreases n
  {
    if n > 0 {
      assert DecodedUnits(keys, n - 1).Ok?;
      DecodedUnitsSlots(keys, n - 1);
      DecodedUnitsNext(keys, n);
      var prev := DecodedUnits(keys, n - 1).value;
      assert DecodedUnits(keys, n).value[..n - 1] == prev;
    }
  }

  // ---------------------------------------------------------------------
  // Properties of the conversions

  /** The two sections are accepted in either order. */
  lemma SectionOrderIrrelevant(version: nat, x: Section, y: Section, signature: string)
    ensures BankOfXml(XmlBank(version, (x, y), signature)) == BankOfXml(XmlBank(version, (y, x), signature))
  {
  }

  /** Every runling within its maxima and the account within its maxima,
      and both checksum sums within the camera blob's maxima. */
  predicate BankWithinLimits(b: Bank) {
    && SlotsWithin(b.units, 8)
    && AccountWithinMaxima(b.account)
    && AccountChecksum(b.account) <= AccountSumMax
    && OccupiedSum(b.units) + b.playerHandle <= UnitSumMax
  }

  /** The key that slot `k` holds in the unit section, if any. */
  function SlotEntry(units: Units, k: nat): Option<string>
    requires 1 <= k <= 8
  {
    if units[k - 1].Some? && EncodedRunling(units[k - 1].value).Ok? then
      Some(EncodedRunling(units[k - 1].value).value)
    else None
  }

  /** The runlings in the first `n` slots are within their maxima. */
  predicate SlotsWithin(units: Units, n: nat)
    requires n <= 8
  {
    forall i :: 0 <= i < n && units[i].Some? ==> RunlingWithinMaxima(units[i].value)
  }

  /** The unit keys for slots 1 to `n` are written exactly when those
      runlings are within their maxima. */
  lemma {:induction false} UnitKeysAccepted(units: Units, n: nat)
    requires n <= 8
    ensures UnitKeys(units, n).Ok? <==> SlotsWithin(units, n)
    decreases n
  {
    if n > 0 {
      UnitKeysAccepted(units, n - 1);
      UnitKeysStep(units, n);
      if units[n - 1].Some? {
        RunlingRoundTrip(units[n - 1].value);
      }
      SlotsWithinStep(units, n);
    }
  }

  /** The slots before `n` within their maxima: those before `n - 1`, and
      slot `n - 1`. */
  lemma SlotsWithinStep(units: Units, n: nat)
    requires 1 <= n <= 8
    ensures SlotsWithin(units, n) <==>
      SlotsWithin(units, n - 1) && (units[n - 1].Some? ==> RunlingWithinMaxima(units[n - 1].value))
  {
  }

  /** Slot `n`'s key is written when the slots before it were and its own
      runling, if any, encodes. */
  lemma UnitKeysStep(units: Units, n: nat)
    requires 1 <= n <= 8
    ensures UnitKeys(units, n).Ok? <==>
      UnitKeys(units, n - 1).Ok? && (units[n - 1].Some? ==> EncodedRunling(units[n - 1].value).Ok?)
  {
  }

  /** `keys` hold key `"0k"` for the occupied slots `k` up to `n`, no other
      slot key and no "info" key. */
  predicate SlotKeysUpTo(keys: seq<Key>, units: Units, n: nat) {
    && FindKey(keys, "info") == None
    && forall k :: 1 <= k <= 8 ==>
      FindKey(keys, SlotKeyName(k)) == if k <= n then SlotEntry(units, k) else None
  }

  /** Written unit keys for slots 1 to `n` hold exactly those slots. */
  lemma {:induction false} UnitKeysContents(units: Units, n: nat)
    requires n <= 8
    requires UnitKeys(units, n).Ok?
    ensures SlotKeysUpTo(UnitKeys(units, n).value, units, n)
    decreases n
  {
    if n > 0 {
      UnitKeysContents(units, n - 1);
      var keys := UnitKeys(units, n - 1).value;
      if units[n - 1].Some? {
        var key := Key(SlotKeyName(n), EncodedRunling(units[n - 1].value).value);
        assert UnitKeys(units, n).value == keys + [key];
        AppendSlotKey(units, n, keys, key);
      } else {
        SkipSlotKey(units, n, keys);
      }
    }
  }

  /** Appending slot `n`'s key to the keys of the slots before it. */
  lemma AppendSlotKey(units: Units, n: nat, keys: seq<Key>, key: Key)
    requires 1 <= n <= 8
    requires units[n - 1].Some? && EncodedRunling(units[n - 1].value).Ok?
    requires key == Key(SlotKeyName(n), EncodedRunling(units[n - 1].value).value)
    requires SlotKeysUpTo(keys, units, n - 1)
    ensures SlotKeysUpTo(keys + [key], units, n)
  {
    FindKeyAppend(keys, [key], "info");
    SlotKeyNames(n, n);
    forall k | 1 <= k <= 8
      ensures FindKey(keys + [key], SlotKeyName(k)) == if k <= n then SlotEntry(units, k) else None
    {
      AppendSlotKeyAt(units, n, keys, key, k);
    }
  }

  /** Slot `k`'s lookup after slot `n`'s key is appended. */
  lemma AppendSlotKeyAt(units: Units, n: nat, keys: seq<Key>, key: Key, k: nat)
    requires 1 <= n <= 8 && 1 <= k <= 8
    requires units[n - 1].Some? && EncodedRunling(units[n - 1].value).Ok?
    requires key == Key(SlotKeyName(n), EncodedRunling(units[n - 1].value).value)
    requires FindKey(keys, SlotKeyName(k)) == if k < n then SlotEntry(units, k) else None
    ensures FindKey(keys + [key], SlotKeyName(k)) == if k <= n then SlotEntry(units, k) else None
  {
    FindKeyAppend(keys, [key], SlotKeyName(k));
    SlotKeyNames(k, n);
    assert FindKey([key], SlotKeyName(k)) == if k == n then Some(key.value) else None;
  }

  /** An empty slot `n` adds no key. */
  lemma SkipSlotKey(units: Units, n: nat, keys: seq<Key>)
    requires 1 <= n <= 8 && units[n - 1].None?
    requires SlotKeysUpTo(keys, units, n - 1)
    ensures SlotKeysUpTo(keys, units, n)
  {
  }

  /** The unit section's slot keys decode back to the slots. */
  lemma {:induction false} DecodedUnitsOfKeys(keys: seq<Key>, units: Units, n: nat)
    requires n <= 8
    requires SlotsWithin(units, 8)
    requires forall k :: 1 <= k <= 8 ==> FindKey(keys, SlotKeyName(k)) == SlotEntry(units, k)
    ensures DecodedUnits(keys, n) == Ok(units[..n])
    decreases n
  {
    if n > 0 {
      DecodedUnitsOfKeys(keys, units, n - 1);
      assert units[..n] == units[..n - 1] + [units[n - 1]];
      DecodedSlot(keys, units, n);
    }
  }

  /** Slot `n`'s key, written for a runling within its maxima, reads back
      as that slot. */
  lemma DecodedSlot(keys: seq<Key>, units: Units, n: nat)
    requires 1 <= n <= 8 && SlotsWithin(units, 8)
    requires FindKey(keys, SlotKeyName(n)) == SlotEntry(units, n)
    ensures units[n - 1].None? ==> FindKey(keys, SlotKeyName(n)).None?
    ensures units[n - 1].Some? ==>
      FindKey(keys, SlotKeyName(n)).Some? && DecodedRunling(FindKey(keys, SlotKeyName(n)).value) == Ok(units[n - 1].value)
  {
    if units[n - 1].Some? {
      RunlingRoundTrip(units[n - 1].value);
    }
  }

  /** The "unit" section is written exactly when every runling is within
      its maxima, and its slot keys read back as the same slots. */
  lemma UnitSectionRoundTrip(units: Units)
    ensures UnitSection(units).Ok? <==> SlotsWithin(units, 8)
    ensures UnitSection(units).Ok? ==>
      && UnitSection(units).value.name == "unit"
      && DecodedUnits(UnitSection(units).value.keys, 8) == Ok(units)
  {
    UnitKeysAccepted(units, 8);
    if UnitKeys(units, 8).Ok? {
      var unitKeys := UnitKeys(units, 8).value;
      var infoKey := Key("info", UnitSlotsData(units));
      assert UnitSection(units) == Ok(Section("unit", unitKeys + [infoKey]));
      UnitKeysContents(units, 8);
      WrittenKeysDecode(units, unitKeys, infoKey);
    }
  }

  /** The written slot keys, followed by the "info" key, read back as the
      slots. */
  lemma WrittenKeysDecode(units: Units, unitKeys: seq<Key>, infoKey: Key)
    requires SlotKeysUpTo(unitKeys, units, 8)
    requires SlotsWithin(units, 8)
    requires infoKey.name == "info"
    ensures DecodedUnits(unitKeys + [infoKey], 8) == Ok(units)
  {
    forall k | 1 <= k <= 8
      ensures FindKey(unitKeys + [infoKey], SlotKeyName(k)) == SlotEntry(units, k)
    {
      InfoKeyAfterSlots(unitKeys, infoKey, units, k);
    }
    DecodedUnitsOfKeys(unitKeys + [infoKey], units, 8);
    assert units[..8] == units;
  }

  /** The "info" key after the slot keys hides no slot key. */
  lemma InfoKeyAfterSlots(unitKeys: seq<Key>, infoKey: Key, units: Units, k: nat)
    requires 1 <= k <= 8 && infoKey.name == "info"
    requires FindKey(unitKeys, SlotKeyName(k)) == SlotEntry(units, k)
    ensures FindKey(unitKeys + [infoKey], SlotKeyName(k)) == SlotEntry(units, k)
  {
    FindKeyAppend(unitKeys, [infoKey], SlotKeyName(k));
    SlotKeyNames(k, k);
  }

  /** The "account" section is written exactly when the account is within
      its maxima and both checksum sums fit the camera blob, and then holds
      the camera checksum and an "info" key that reads back as the
      account. */
  lemma AccountSectionRoundTrip(b: Bank)
    ensures AccountSection(b).Ok? <==>
      && AccountWithinMaxima(b.account)
      && AccountChecksum(b.account) <= AccountSumMax
      && OccupiedSum(b.units) + b.playerHandle <= UnitSumMax
    ensures AccountSection(b).Ok? ==>
      && AccountSection(b).value.name == "account"
      && BankCameraChecksum(b).Ok?
      && FindKey(AccountSection(b).value.keys, "camera") == Some(BankCameraChecksum(b).value)
      && FindKey(AccountSection(b).value.keys, "info").Some?
      && DecodedAccount(FindKey(AccountSection(b).value.keys, "info").value) == Ok(b.account)
  {
    AccountRoundTrip(b.account);
    BankCameraChecksumAccepted(b);
  }

  /** A "unit" and an "account" section with those contents read back as
      the bank, whatever the version and signature. */
  lemma BankOfSections(version: nat, unit: Section, account: Section, signature: string, b: Bank)
    requires unit.name == "unit" && DecodedUnits(unit.keys, 8) == Ok(b.units)
    requires account.name == "account"
    requires BankCameraChecksum(b).Ok?
    requires FindKey(account.keys, "camera") == Some(BankCameraChecksum(b).value)
    requires FindKey(account.keys, "info").Some?
    requires DecodedAccount(FindKey(account.keys, "info").value) == Ok(b.account)
    ensures BankOfXml(XmlBank(version, (unit, account), signature)) == Ok(b)
  {
    PlayerHandleRecovered(b);
  }

  /** What any accepted document holds: sections named "unit" and
      "account", an account section with "camera" and "info" keys, the
      account decoded from "info", slot k filled exactly when key "0k"
      exists with the runling it decodes to, and the handle derived from
      "camera". */
  lemma XmlBankAccepted(x: XmlBank)
    requires BankOfXml(x).Ok?
    ensures UnitAndAccount(x).0.name == "unit" && UnitAndAccount(x).1.name == "account"
    ensures FindKey(UnitAndAccount(x).1.keys, "camera").Some?
    ensures FindKey(UnitAndAccount(x).1.keys, "info").Some?
    ensures DecodedAccount(FindKey(UnitAndAccount(x).1.keys, "info").value) == Ok(BankOfXml(x).value.account)
    ensures forall k :: 1 <= k <= 8 ==>
      (BankOfXml(x).value.units[k - 1].Some? <==> FindKey(UnitAndAccount(x).0.keys, SlotKeyName(k)).Some?)
    ensures forall k :: 1 <= k <= 8 && FindKey(UnitAndAccount(x).0.keys, SlotKeyName(k)).Some? ==>
      DecodedRunling(FindKey(UnitAndAccount(x).0.keys, SlotKeyName(k)).value) == Ok(BankOfXml(x).value.units[k - 1].value)
    ensures DerivedPlayerHandle(FindKey(UnitAndAccount(x).1.keys, "camera").value, BankOfXml(x).value.units)
      == Ok(BankOfXml(x).value.playerHandle)
  {
    DecodedUnitsSlots(UnitAndAccount(x).0.keys, 8);
  }

  /** Writing a bank succeeds exactly when it is within its limits, and
      reading the written document gives the same bank back. */
  lemma BankRoundTrip(digest: string -> string, b: Bank)
    ensures XmlOfBank(digest, b).Ok? <==> BankWithinLimits(b)
    ensures XmlOfBank(digest, b).Ok? ==> BankOfXml(XmlOfBank(digest, b).value) == Ok(b)
  {
    UnitSectionRoundTrip(b.units);
    AccountSectionRoundTrip(b);
    if XmlOfBank(digest, b).Ok? {
      var x := XmlOfBank(digest, b).value;
      BankOfSections(x.version, x.section.0, x.section.1, x.signature, b);
    }
  }

  /** In the signed bytes of a written bank the "account" section comes
      before the "unit" section, whatever order the document holds them
      in. */
  lemma WrittenSectionsSorted(unit: Section, account: Section)
    requires unit.name == "unit" && account.name == "account"
    ensures SortByName([unit, account], SectionName) == [account, unit]
  {
    assert !NameLe(SectionName(unit), SectionName(account));
    assert [unit, account][..1] == [unit];
    assert [unit][..0] == [];
    assert SortByName([unit], SectionName) == Insert([], unit, SectionName) == [unit];
    assert Insert([unit], account, SectionName) == Insert([], account, SectionName) + [unit];
  }
}
