/** The handle-aware checksum of src/main.rs. There, every runling's checksum
    carries the player handle, so the stored runling sum holds the handle
    once per runling, and `derive_handle` recovers it by subtracting the
    handle-free sum and dividing by the number of runlings. */
module HandleChecksum {
  import opened Results
  import opened Starcode
  import opened Records
  import opened CameraBlob

  /** `Runling::checksum(handle)` of src/main.rs: the same seven fields as
      the src/model.rs checksum, plus the handle. */
  function RunlingChecksumWithHandle(r: Runling, handle: nat): (c: nat)
    ensures c == RunlingChecksum(r) + handle
  {
    r.remainingPoints + r.energyRegeneration + r.speed + r.maximumEnergy
    + r.skill1Level + r.skill2Level + r.experience + handle
  }

  /** `runlings.iter().map(|r| r.checksum(handle)).sum()`. */
  function HandleSum(rs: seq<Runling>, handle: nat): nat
    decreases |rs|
  {
    if rs == [] then 0
    else HandleSum(rs[..|rs| - 1], handle) + RunlingChecksumWithHandle(rs[|rs| - 1], handle)
  }

  /** The handle enters the sum once per runling. */
  lemma {:induction false} HandleSumSplit(rs: seq<Runling>, handle: nat)
    ensures HandleSum(rs, handle) == HandleSum(rs, 0) + |rs| * handle
    decreases |rs|
  {
    if rs != [] {
      HandleSumSplit(rs[..|rs| - 1], handle);
    }
  }

  /** What `generate_checksum` returns. */
  function GeneratedChecksum(rs: seq<Runling>, account: Account, handle: nat): Result<string> {
    CameraChecksum(AccountChecksum(account), HandleSum(rs, handle))
  }

  /** `generate_checksum`. */
  method GenerateChecksum(rs: seq<Runling>, account: Account, handle: nat) returns (r: Result<string>)
    ensures r == GeneratedChecksum(rs, account, handle)
  {
    r := GenerateCameraChecksum(AccountChecksum(account), HandleSum(rs, handle));
  }

  /** The truncated quotient brackets its dividend between two multiples
      of `d`: `usize` division of naturals is Dafny's `/`. */
  lemma QuotientBrackets(x: nat, d: nat)
    requires d > 0
    ensures d * (x / d) <= x < d * (x / d + 1)
  {
    var q, r := x / d, x % d;
    assert x == q * d + r;
    assert d * (q + 1) == q * d + d;
  }

  /** What `derive_handle` returns. The unsigned subtraction panics when the
      stored sum is below the handle-free sum, and the division panics on an
      empty runling list; otherwise the quotient is truncated. */
  function DerivedHandle(blob: string, rs: seq<Runling>): (r: Result<nat>)
    ensures r == Err(InvalidCharacter) <==> !IsAlphabetString(blob)
    ensures r == Err(ChecksumUnderflow) <==>
      StoredUnitSum(blob).Ok? && StoredUnitSum(blob).value < HandleSum(rs, 0)
    ensures r == Err(NoRunlings) <==>
      StoredUnitSum(blob).Ok? && HandleSum(rs, 0) <= StoredUnitSum(blob).value && |rs| == 0
  {
    match StoredUnitSum(blob)
    case Err(e) => Err(e)
    case Ok(stored) => HandleOfSum(stored, rs)
  }

  /** The subtraction and division of `derive_handle`, once the stored
      runling sum has been read. */
  function HandleOfSum(stored: nat, rs: seq<Runling>): (r: Result<nat>)
    ensures r == Err(ChecksumUnderflow) <==> stored < HandleSum(rs, 0)
    ensures r == Err(NoRunlings) <==> HandleSum(rs, 0) <= stored && |rs| == 0
    ensures r.Ok? ==> r.value == (stored - HandleSum(rs, 0)) / |rs|
  {
    if stored < HandleSum(rs, 0) then Err(ChecksumUnderflow)
    else if |rs| == 0 then Err(NoRunlings)
    else Ok((stored - HandleSum(rs, 0)) / |rs|)
  }

  /** `derive_handle`. */
  method DeriveHandle(blob: string, rs: seq<Runling>) returns (r: Result<nat>)
    ensures r == DerivedHandle(blob, rs)
  {
    var stored := ReadStoredUnitSum(blob);
    if stored.Err? {
      return Err(stored.error);
    }
    var base := HandleSum(rs, 0);
    if stored.value < base {
      return Err(ChecksumUnderflow);
    }
    var handleSum := stored.value - base;
    if |rs| == 0 {
      return Err(NoRunlings);
    }
    r := Ok(handleSum / |rs|);
  }

  /** `generate_checksum` succeeds exactly when both sums fit their
      maxima. */
  lemma GeneratedChecksumAccepted(rs: seq<Runling>, account: Account, handle: nat)
    ensures GeneratedChecksum(rs, account, handle).Ok? <==>
      AccountChecksum(account) <= AccountSumMax && HandleSum(rs, handle) <= UnitSumMax
  {
    StoredUnitSumOfChecksum(AccountChecksum(account), HandleSum(rs, handle));
  }

  /** A blob whose stored runling sum is the sum regenerated with handle `h`
      yields `h`, for any non-empty runling list. */
  lemma DerivedFromStored(blob: string, rs: seq<Runling>, h: nat)
    requires |rs| > 0
    requires StoredUnitSum(blob) == Ok(HandleSum(rs, h))
    ensures DerivedHandle(blob, rs) == Ok(h)
  {
    ExactSumQuotient(rs, h);
    DerivedHandleOk(blob, rs, HandleSum(rs, h));
  }

  /** Subtracting the handle-free sum from an exact sum and dividing by the
      runling count gives back the handle. */
  lemma ExactSumQuotient(rs: seq<Runling>, h: nat)
    requires |rs| > 0
    ensures HandleSum(rs, 0) <= HandleSum(rs, h)
    ensures (HandleSum(rs, h) - HandleSum(rs, 0)) / |rs| == h
  {
    HandleSumSplit(rs, h);
    DivExact(h, |rs|);
  }

  /** Once the stored sum reads back, `derive_handle` is its subtraction
      and division. */
  lemma DerivedHandleOk(blob: string, rs: seq<Runling>, stored: nat)
    requires StoredUnitSum(blob) == Ok(stored)
    ensures DerivedHandle(blob, rs) == HandleOfSum(stored, rs)
  {
  }

  /** For a non-empty runling list, `derive_handle` recovers the handle that
      `generate_checksum` was given. */
  lemma HandleRecovered(rs: seq<Runling>, account: Account, handle: nat)
    requires |rs| > 0
    requires GeneratedChecksum(rs, account, handle).Ok?
    ensures DerivedHandle(GeneratedChecksum(rs, account, handle).value, rs) == Ok(handle)
  {
    StoredUnitSumOfChecksum(AccountChecksum(account), HandleSum(rs, handle));
    DerivedFromStored(GeneratedChecksum(rs, account, handle).value, rs, handle);
  }

  /** Dividing an exact multiple of `d` by `d` leaves no remainder to
      truncate. */
  lemma DivExact(q: nat, d: nat)
    requires d > 0
    ensures (d * q) / d == q
  {
    DivModOf(q, 0, d);
    assert q * d + 0 == d * q;
  }

  /** The derived handle is the largest handle whose regenerated runling sum
      does not exceed the stored one: a stored sum that is not exact is
      rounded down rather than rejected. */
  lemma DerivedHandleTruncates(blob: string, rs: seq<Runling>)
    requires DerivedHandle(blob, rs).Ok?
    ensures HandleSum(rs, DerivedHandle(blob, rs).value) <= StoredUnitSum(blob).value
    ensures StoredUnitSum(blob).value < HandleSum(rs, DerivedHandle(blob, rs).value + 1)
  {
    var stored := StoredUnitSum(blob).value;
    DerivedHandleOk(blob, rs, stored);
    SumsAroundQuotient(rs, stored);
  }

  /** The handle-free sum plus the truncated quotient of the excess, once
      per runling, lies within one runling count of `stored`. */
  lemma SumsAroundQuotient(rs: seq<Runling>, stored: nat)
    requires |rs| > 0 && HandleSum(rs, 0) <= stored
    ensures HandleSum(rs, (stored - HandleSum(rs, 0)) / |rs|) <= stored
    ensures stored < HandleSum(rs, (stored - HandleSum(rs, 0)) / |rs| + 1)
  {
    QuotientBrackets(stored - HandleSum(rs, 0), |rs|);
    SumsAroundHandle(rs, stored, (stored - HandleSum(rs, 0)) / |rs|);
  }

  /** A handle whose multiples bracket the excess over the handle-free sum
      has its regenerated sums bracket `stored`. */
  lemma SumsAroundHandle(rs: seq<Runling>, stored: nat, h: nat)
    requires HandleSum(rs, 0) <= stored
    requires |rs| * h <= stored - HandleSum(rs, 0) < |rs| * (h + 1)
    ensures HandleSum(rs, h) <= stored < HandleSum(rs, h + 1)
  {
    HandleSumSplit(rs, h);
    HandleSumSplit(rs, h + 1);
  }

  /** With no runlings there is nothing to divide by: `derive_handle` fails
      on every well-formed blob. */
  lemma NoRunlingsFails(blob: string)
    requires IsAlphabetString(blob)
    ensures DerivedHandle(blob, []) == Err(NoRunlings)
  {
  }

  /** An account within all its field maxima can still have a checksum above
      the blob's 99000000 maximum, and `generate_checksum` then fails. */
  lemma AccountChecksumCanOverflow()
    ensures var a := Account(0, 0, 0, 0, 0, 94000000, 96000000, 0, 0, 0, 0, 0, 0, 0, 0, 0, 0,
      0, 0, 0, 0, 0, 0, 0, 0, 0, 0, 0, 0, 0, 0, 0, 0);
      AccountWithinMaxima(a) && GeneratedChecksum([], a, 0) == Err(ValueOutOfRange)
  {
    var a := Account(0, 0, 0, 0, 0, 94000000, 96000000, 0, 0, 0, 0, 0, 0, 0, 0, 0, 0,
      0, 0, 0, 0, 0, 0, 0, 0, 0, 0, 0, 0, 0, 0, 0, 0);
    GeneratedChecksumAccepted([], a, 0);
  }
}
