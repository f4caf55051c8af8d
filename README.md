# Runling Run 4 save editor: the verified core

This project models the encoding core of the Runling Run 4 save-file editor.
It covers how a StarCraft II bank file for the map stores an account record,
up to eight runling records, a camera checksum that hides the player handle,
and a signature.

The model has four layers, one module per concept:

- `Starcode` (`starcode.dfy`) is the text encoding every value goes through.
  - `StoreInt`/`GetInt` pack bounded fields into one natural number. Field `i`
    has radix `max_i + 1`, and the last field stored is the first extracted.
  - `Compress`/`Uncompress` write that number as a base-89 numeral over the
    89-character alphabet. The most significant digit comes first, and 0 is
    the empty string.
  - `Encrypt`/`Decrypt` shift each character by the key character
    `"WalkerKey"[i mod 9]`.
- `FieldTable` (`fieldtable.dfy`) packs and unpacks a table of fields, for any
  table of maxima. `Records` (`records.dfy`) fills it in with the 33-field
  `Account` table and the 9-field `Runling` table. `to_data` stores the fields
  in declaration order, and `from_data` extracts them in reverse. The record
  checksums are sums over a fixed subset of fields. The copies of these codecs
  in `src/main.rs` are identical to the ones in `src/model.rs`, so one model
  stands for both.
- `CameraBlob` (`camera.dfy`) packs two sums into the camera checksum: the
  account checksum (maximum 99000000) and then a runling sum (maximum
  98000000). The two readers of the blob differ in how they use it:
  - `HandleChecksum` (`handle.dfy`) models `src/main.rs`. There, every
    runling's checksum includes the handle, and `derive_handle` divides by the
    number of runlings.
  - `BankFile` models `src/bank.rs`. There, the handle is added once, and
    `derive_player_handle` subtracts.
- `BankFile` (`bank.dfy`) also covers:
  - the eight-slot occupancy blob;
  - building the "unit" and "account" sections from a bank;
  - reading a bank back from its sections;
  - the exact text fed to the signature hash.

  `NameOrder` (`names.dfy`) models the by-name `sort_by` used there. `Results`
  (`results.dfy`) holds the `Result`/`Option` types.

`Samples` (`samples.dfy`) works one concrete blob through the model. The blob
"/Uni.I^uVUgUsr::M3I~IeI0" is written out in src/starcode.rs:105 and
src/main.rs:501. It decodes to the runling that the record test at
src/model.rs:415-433 expects: class 1, experience 663, energy regeneration 11,
maximum energy 16, speed 17, skill levels 4 and 0, runling level 15 and no
remaining points. That runling encodes back to the same blob.

A Rust panic becomes an `Err`:

| panic in the source | error in the model |
|---|---|
| `alphabet_index` on a character outside the alphabet | `InvalidCharacter` |
| the `assert!` of `store_int` | `ValueOutOfRange` |
| a `usize` subtraction that underflows | `ChecksumUnderflow` |
| division by an empty runling list | `NoRunlings` |
| a failed section-name `assert_eq!` | `WrongSectionName` |
| a failed key lookup's `unwrap` | `MissingKey` |

The primitives `Encrypt`, `Decrypt` and `Uncompress` take alphabet-only input
as a precondition. The functions that read external blobs check for it and
return `InvalidCharacter` instead.

Three behaviours of the source are stated and proved as written:

- `derive_handle` in `src/main.rs` rounds a stored sum that is not exact down
  rather than rejecting it (`HandleChecksum.DerivedHandleTruncates`).
- `from_data` never checks that the accumulator is used up. A blob whose
  leftover is 0 and whose numeral has no leading zero digit re-encodes to
  itself (`Records.AccountBlobRoundTrip`, `Records.RunlingBlobRoundTrip`). A
  blob whose leftover is not 0 still decodes, but re-encoding the record gives
  a different blob (`Records.AccountLeftoverBlocksReencode`,
  `Records.RunlingLeftoverBlocksReencode`).
- An account whose every field is within its maximum can still have a checksum
  above the camera blob's 99000000. Writing the camera checksum then fails
  (`HandleChecksum.AccountChecksumCanOverflow`).

## Model

| member | source | states |
|---|---|---|
| Starcode.Position | src/starcode.rs:7-12 | the search for a character gives -1 or a position at or after its start |
| Starcode.PositionFound | src/starcode.rs:7-12 | a found position holds the character, and no earlier position from the start does; a failed search passed no occurrence |
| Starcode.PositionOfFirst | src/starcode.rs:7-12 | the search for the character at `k` ends at `k` when it does not occur before `k` |
| Starcode.AlphabetIndex | src/starcode.rs:7-12 | `alphabet_index` of an alphabet character is a digit value below 89 |
| Starcode.DigitValueOfAlphabet | src/starcode.rs:3-4 | an independent 89-entry digit table gives every alphabet character its own position |
| Starcode.AlphabetDistinct | src/starcode.rs:3-4 | the 89 alphabet characters are pairwise distinct |
| Starcode.DigitIndex | src/starcode.rs:3-12 | `alphabet_index(ALPHABET[k]) == k` for every `k < 89` |
| Starcode.DigitAtIndex | src/starcode.rs:7-18 | `ALPHABET[alphabet_index(c)] == c` for every alphabet character |
| Starcode.AlphabetIndexIsDigitValue | src/starcode.rs:7-12 | the search result agrees with the independent digit table |
| Starcode.InAlphabetIsMember | src/starcode.rs:7-12 | `alphabet_index` succeeds exactly on the characters of `ALPHABET` |
| Starcode.ZeroDigit | src/starcode.rs:3-4 | digit `k` is `'0'` exactly when `k == 0` |
| Starcode.KeyInAlphabet | src/starcode.rs:5 | every character of `"WalkerKey"` is in the alphabet |
| Starcode.AddTurn | src/starcode.rs:23 | the extra `+ ALPHABET.len()` of `shift_forward` leaves the residue unchanged |
| Starcode.SubTurn | src/starcode.rs:17 | the `+ ALPHABET.len()` of `shift_backward` turns unsigned subtraction into the mathematical residue |
| Starcode.ShiftForward | src/starcode.rs:20-25 | the result is an alphabet character whose index is `(index(c) + index(d)) mod 89` |
| Starcode.ShiftBackward | src/starcode.rs:14-19 | the result is an alphabet character whose index is `(index(c) - index(d)) mod 89` |
| Starcode.TurnInverse | src/starcode.rs:14-25 | adding and then subtracting a key index mod 89 cancels, in both orders |
| Starcode.ShiftBackwardForward | src/starcode.rs:14-25 | `shift_backward(shift_forward(c, d), d) == c` |
| Starcode.ShiftForwardBackward | src/starcode.rs:14-25 | `shift_forward(shift_backward(c, d), d) == c` |
| Starcode.KeyChar | src/starcode.rs:30-33 | the key character `ENCRYPTION_KEY[i mod 9]` is an alphabet character |
| Starcode.Encrypted | src/starcode.rs:38-48 | encryption preserves length |
| Starcode.EncryptedAt | src/starcode.rs:40-45 | output position `i` is input position `i` shifted forward by key character `i mod 9` |
| Starcode.EncryptedIsAlphabet | src/starcode.rs:38-48 | the encrypted string is written in the alphabet |
| Starcode.Decrypted | src/starcode.rs:27-37 | decryption preserves length |
| Starcode.DecryptedAt | src/starcode.rs:29-34 | output position `i` is input position `i` shifted back by key character `i mod 9` |
| Starcode.DecryptedIsAlphabet | src/starcode.rs:27-37 | the decrypted string is written in the alphabet |
| Starcode.Encrypt | src/starcode.rs:38-48 | the push loop builds exactly the encrypted string |
| Starcode.Decrypt | src/starcode.rs:27-37 | the push loop builds exactly the decrypted string, which is again over the alphabet |
| Starcode.DecryptEncrypt | src/starcode.rs:27-48 | `decrypt(encrypt(s)) == s` for every alphabet string |
| Starcode.EncryptDecrypt | src/starcode.rs:27-48 | `encrypt(decrypt(s)) == s` for every alphabet string, the property the module test checks on one blob |
| Starcode.Compressed | src/starcode.rs:50-67 | the numeral is empty exactly for 0 |
| Starcode.CompressedIsAlphabet | src/starcode.rs:50-67 | every numeral is written in the alphabet |
| Starcode.CompressedLeadingDigit | src/starcode.rs:50-67 | the numeral of a nonzero value never starts with `'0'` |
| Starcode.CompressedStep | src/starcode.rs:55-66 | the numeral of nonzero `m` is that of `m / 89` followed by digit `m mod 89` |
| Starcode.CompressedDigits | src/starcode.rs:55-66 | the numeral of `high * 89 + digit` is that of `high` followed by `digit` |
| Starcode.Compress | src/starcode.rs:50-67 | the divide-push-reverse loop yields the most-significant-first numeral, over the alphabet |
| Starcode.Uncompressed | src/starcode.rs:68-81 | the value of an `n`-digit numeral is below `89^n` |
| Starcode.UncompressedCons | src/starcode.rs:68-81 | a leading digit `c` contributes `index(c) * 89^(length of the rest)` |
| Starcode.Uncompress | src/starcode.rs:68-81 | the `power`/`result` loop over the reversed string computes the numeral's value |
| Starcode.UncompressCompress | src/starcode.rs:50-81 | `uncompress(compress(n)) == n` for every natural `n` |
| Starcode.CompressUncompress | src/starcode.rs:50-81 | `compress(uncompress(s)) == s` for every alphabet string without a leading `'0'`, as the module test checks on one blob |
| Starcode.Extract | src/starcode.rs:83-89 | the value `get_int` returns never exceeds its maximum |
| Starcode.StoreInt | src/starcode.rs:90-97 | `store_int` fails above the maximum and otherwise appends `val` as a digit of radix `max + 1` |
| Starcode.GetInt | src/starcode.rs:83-89 | `get_int` returns the lowest radix-`max + 1` digit and leaves the quotient |
| Starcode.ExtractStore | src/starcode.rs:83-97 | extracting right after storing returns the value and restores the accumulator |
| Starcode.StoreExtract | src/starcode.rs:83-97 | storing back what was extracted restores the accumulator |
| FieldTable.Unpacked | src/model.rs:77-179 | every field extracted is within its maximum |
| FieldTable.UnpackPacked | src/model.rs:77-279 | extracting a table in reverse gives back the values stored in order, and the accumulator they were stored on |
| FieldTable.PackUnpacked | src/model.rs:77-279 | storing back the extracted fields and leftover rebuilds the accumulator |
| FieldTable.StoreFields | src/model.rs:181-277 | the `store_int` chain fails exactly when some field exceeds its maximum, and otherwise packs the fields in table order |
| FieldTable.ExtractFields | src/model.rs:77-179 | the `get_int` chain, last field first, returns the fields in table order and the leftover |
| FieldTable.DecodedFields | src/model.rs:77-179 | a blob decodes exactly when every character is in the alphabet, fails with InvalidCharacter otherwise (where `alphabet_index` panics), and every decoded field is within its maximum |
| FieldTable.EncodeFields | src/model.rs:181-279 | `to_data` is store, compress, then encrypt |
| FieldTable.DecodeFields | src/model.rs:77-179 | `from_data` is decrypt, uncompress, then extract, and fails on a character outside the alphabet |
| FieldTable.DecodeEncoded | src/model.rs:77-279 | encoding succeeds exactly when every field is within its maximum; decoding then gives the fields back and leaves 0 |
| FieldTable.EncodeDecoded | src/model.rs:77-279 | a blob without a leading zero digit and with no leftover re-encodes to itself from its decoded fields |
| Records.AccountFields | src/model.rs:41-74 | an account has one field per entry of `account_max_vals` |
| Records.AccountFieldsRoundTrip | src/model.rs:77-279 | `from_data` fills each field from the table slot `to_data` stored it in, in both directions |
| Records.AccountWithin | src/model.rs:5-39 | an account within its named maxima is within the stored table |
| Records.AccountInRange | src/model.rs:5-39 | an account within the stored table is within its named maxima |
| Records.AccountTableMatches | src/model.rs:184-276 | each field is stored with its own `account_max_vals` bound |
| Records.AccountToData | src/model.rs:181-279 | `to_data` is the table encoding of the fields in declaration order under `account_max_vals` |
| Records.AccountFromData | src/model.rs:77-179 | `from_data` is the table decoding under `account_max_vals`, read into the fields |
| Records.AccountRoundTrip | src/model.rs:77-279 | `to_data` succeeds exactly within the maxima, including a field exactly at its maximum, and then `from_data(a.to_data()) == a` |
| Records.DecodedAccountWithinMaxima | src/model.rs:77-179 | every decoded account field is within its maximum |
| Records.AccountBlobRoundTrip | src/model.rs:435-477 | a blob without a leading zero digit and with no leftover decodes and re-encodes to itself |
| Records.AccountLeftoverBlocksReencode | src/model.rs:77-279 | a blob that unpacks with a nonzero leftover decodes, but `to_data` of the account it gives is a different blob |
| Records.AccountChecksumIgnoresSettings | src/model.rs:281-296 | accounts agreeing on the 14 summed fields have the same checksum, whatever their insane, camera, hide, movement and skill fields |
| Records.RunlingFields | src/model.rs:311-321 | a runling has one field per entry of `runling_max_vals` |
| Records.RunlingFieldsRoundTrip | src/model.rs:323-396 | `from_data` fills each field from the table slot `to_data` stored it in, in both directions |
| Records.RunlingWithin | src/model.rs:299-309 | a runling within its named maxima is within the stored table |
| Records.RunlingInRange | src/model.rs:299-309 | a runling within the stored table is within its named maxima |
| Records.RunlingTableMatches | src/model.rs:361-393 | each field is stored with its own `runling_max_vals` bound |
| Records.RunlingToData | src/model.rs:358-396 | `to_data` is the table encoding of the fields in declaration order under `runling_max_vals` |
| Records.RunlingFromData | src/model.rs:323-356 | `from_data` is the table decoding under `runling_max_vals`, read into the fields |
| Records.RunlingRoundTrip | src/model.rs:323-396 | `to_data` succeeds exactly within the maxima, and then `from_data(r.to_data()) == r` |
| Records.DecodedRunlingWithinMaxima | src/model.rs:323-356 | every decoded runling field is within its maximum |
| Records.RunlingBlobRoundTrip | src/model.rs:415-433 | a blob without a leading zero digit and with no leftover decodes and re-encodes to itself |
| Records.RunlingLeftoverBlocksReencode | src/model.rs:323-396 | a blob that unpacks with a nonzero leftover decodes, but `to_data` of the runling it gives is a different blob |
| Records.RunlingChecksumIgnoresClassAndLevel | src/model.rs:398-406 | class and runling level do not enter the runling checksum |
| CameraBlob.StoredUnitSum | src/bank.rs:12-13 | reading the runling sum fails only on a character outside the alphabet, and otherwise gives a value at most 98000000 |
| CameraBlob.PairTable | src/bank.rs:176-187 | the two stored sums are within range exactly when each is within its own maximum; the runling sum is the first one extracted |
| CameraBlob.GenerateCameraChecksum | src/bank.rs:175-189 | stores the account sum, then the runling sum, then compresses and encrypts |
| CameraBlob.ReadStoredUnitSum | src/bank.rs:12-13 | decrypts, uncompresses and extracts the last field stored |
| CameraBlob.StoredUnitSumOfChecksum | src/bank.rs:175-189 | the checksum is written exactly when both sums fit, and reading it back gives the runling sum |
| HandleChecksum.RunlingChecksumWithHandle | src/main.rs:399-408 | `checksum(h) == checksum(0) + h`, where `checksum(0)` is the model.rs checksum |
| HandleChecksum.HandleSumSplit | src/main.rs:487 | the sum of `checksum(h)` over the runlings is the handle-free sum plus the runling count times `h` |
| HandleChecksum.GenerateChecksum | src/main.rs:482-491 | `generate_checksum` stores the account checksum and the handle-carrying runling sum |
| HandleChecksum.QuotientBrackets | src/main.rs:496 | the truncated quotient lies between the two multiples of the divisor around the dividend |
| HandleChecksum.DerivedHandle | src/main.rs:492-498 | `derive_handle` fails with InvalidCharacter exactly on a blob outside the alphabet, with ChecksumUnderflow exactly when the stored sum is below the handle-free sum (the `usize` subtraction), and with NoRunlings exactly when there is no underflow and the list is empty (the division by zero) |
| HandleChecksum.HandleOfSum | src/main.rs:495-496 | after the stored sum is read: ChecksumUnderflow exactly when it is below the handle-free sum, NoRunlings exactly when the list is empty and there is no underflow, otherwise the excess divided by the runling count |
| HandleChecksum.DeriveHandle | src/main.rs:492-498 | the read, subtract and divide steps of `derive_handle` are proved equal to DerivedHandle |
| HandleChecksum.GeneratedChecksumAccepted | src/main.rs:482-491 | `generate_checksum` succeeds exactly when both sums fit their maxima |
| HandleChecksum.DerivedFromStored | src/main.rs:492-498 | a stored sum equal to the sum regenerated with `h` yields `h` for a non-empty list |
| HandleChecksum.ExactSumQuotient | src/main.rs:495-496 | subtracting the handle-free sum from an exact sum and dividing by the count gives the handle |
| HandleChecksum.HandleRecovered | src/main.rs:482-498 | `derive_handle(generate_checksum(rs, a, h), rs) == h` for every non-empty `rs` whose sums fit |
| HandleChecksum.DivExact | src/main.rs:496 | dividing `d * q` by `d` gives `q` |
| HandleChecksum.DerivedHandleTruncates | src/main.rs:495-497 | the derived handle is the largest whose regenerated sum does not exceed the stored one |
| HandleChecksum.SumsAroundQuotient | src/main.rs:495-497 | the sums regenerated with the quotient and with one more bracket the stored sum |
| HandleChecksum.NoRunlingsFails | src/main.rs:496 | with no runlings, `derive_handle` fails on every well-formed blob |
| HandleChecksum.AccountChecksumCanOverflow | src/main.rs:484 | an account within all its field maxima can exceed the 99000000 checksum maximum, and `generate_checksum` then fails |
| BankFile.GenerateBankCameraChecksum | src/bank.rs:175-189 | stores the account checksum, then the occupied-slot sum plus the handle once |
| BankFile.DerivedPlayerHandle | src/bank.rs:11-21 | a derived handle plus the occupied-slot sum is the stored sum; underflow is reported exactly when the stored sum is the smaller |
| BankFile.DerivePlayerHandle | src/bank.rs:11-21 | the method computes the derived handle: stored sum less the occupied-slot sum |
| BankFile.BankCameraChecksumAccepted | src/bank.rs:175-189 | the camera checksum is written exactly when both sums fit |
| BankFile.PlayerHandleRecovered | src/bank.rs:11-21 | `derive_player_handle(b.generate_camera_checksum(), b.units) == b.player_handle` for every occupancy, all slots empty included |
| BankFile.PlayerHandleFromStored | src/bank.rs:11-21 | a stored sum equal to the occupied-slot sum plus `h` yields `h` |
| BankFile.SlotFlags | src/bank.rs:194-198 | eight flags, each 0 or 1, and 1 exactly for an occupied slot |
| BankFile.SlotFlagsInRange | src/bank.rs:193-200 | no flag exceeds its maximum `425 + i`, so the store never fails |
| BankFile.StoreSlotFlags | src/bank.rs:192-201 | the slot loop packs the flags of slots 0 to 7 with maxima 425 to 432 |
| BankFile.GenerateUnitSlotsData | src/bank.rs:191-203 | the flags of the eight slots are packed, compressed and encrypted |
| BankFile.UnitSlotsRecovered | src/bank.rs:191-203 | extracting with maxima 432 down to 425 gives the flags of slots 7 down to 0 and leaves 0 |
| BankFile.Decimal | src/bank.rs:33 | `to_string` gives a non-empty string of decimal digits |
| BankFile.DecimalRoundTrip | src/bank.rs:33 | the decimal string reads back as the number and has no leading zero |
| BankFile.SlotKeyNames | src/bank.rs:119 | slot keys "01" to "08" are distinct, differ from "info" and "camera", and sort like their slots and before "info" |
| BankFile.ComputeSignature | src/bank.rs:23-52 | the signature is the digest of the preamble followed by the sections in name order, each with its keys in name order |
| BankFile.HashSection | src/bank.rs:38-47 | one section feeds its name, then its keys sorted by name |
| BankFile.HashKeys | src/bank.rs:42-47 | each key feeds `name`, `"Value"`, `"string"`, then its value |
| BankFile.PreImageIgnoresSectionOrder | src/bank.rs:36 | with unique section names, the order of the sections does not change the hashed text |
| BankFile.SectionBytesIgnoresKeyOrder | src/bank.rs:40 | with unique key names, the order of a section's keys does not change its hashed text |
| BankFile.WrittenSectionsSorted | src/bank.rs:36 | the "account" section is hashed before the "unit" section |
| BankFile.UnitKeysFailureStays | src/bank.rs:115-125 | once a slot fails to encode, building the unit keys stays failed |
| BankFile.UnitKeysAccepted | src/bank.rs:115-125 | the unit keys are built exactly when every occupied runling is within its maxima |
| BankFile.UnitKeysContents | src/bank.rs:115-125 | the built keys hold `"0k"` with `to_data` of slot `k` exactly for the occupied slots |
| BankFile.BankToXml | src/bank.rs:109-166 | `From<Bank> for XmlBank` builds the unit section, the account section `camera`/`info`, and the signature over both |
| BankFile.FindKey | src/bank.rs:215-219 | the lookup fails exactly when no key has the name, and a found value belongs to a key with that name |
| BankFile.FindKeyFirst | src/bank.rs:215-219 | the lookup returns the first key with the name |
| BankFile.FindKeyAppend | src/bank.rs:215-219 | looking up in a concatenation looks in the front part first |
| BankFile.Required | src/bank.rs:219 | `unwrap` succeeds exactly on a found key and returns its value |
| BankFile.DecodedUnits | src/bank.rs:236-246 | reading slots 1 to `n` gives `n` slots |
| BankFile.DecodedUnitsAccepted | src/bank.rs:236-246 | for any key list, the slots decode exactly when every existing key "0k" holds a valid runling |
| BankFile.DecodedUnitsSlots | src/bank.rs:236-246 | for any key list whose slots decode, slot k is `Some` exactly when key "0k" exists, and then holds the runling that key decodes to |
| BankFile.ReadUnits | src/bank.rs:235-246 | the array of eight empty slots, filled in place from keys "01" to "08", is the decoded unit list |
| BankFile.XmlToBank | src/bank.rs:205-256 | `From<XmlBank> for Bank`: section swap, name checks, key lookups, record decoding and handle derivation |
| BankFile.XmlBankAccepted | src/bank.rs:205-256 | any accepted document has sections named "unit" and "account" and keys "camera" and "info"; its account is the one "info" decodes to, slot k is filled exactly when key "0k" exists, holding the runling that key decodes to, and the handle is the one derived from "camera" |
| BankFile.DecodedUnitsFailureStays | src/bank.rs:236-246 | once a slot fails to decode, reading the slots stays failed |
| BankFile.SectionOrderIrrelevant | src/bank.rs:207-211 | the two sections are accepted in either order |
| BankFile.DecodedUnitsOfKeys | src/bank.rs:236-246 | keys holding exactly the occupied slots' records decode back to those slots |
| BankFile.DecodedSlot | src/bank.rs:236-246 | for keys written from the slots, a slot is `Some` exactly when its key `"0k"` exists, and then holds the decoded runling |
| BankFile.UnitSectionRoundTrip | src/bank.rs:111-131 | the unit section is written exactly when every runling is within its maxima, and reads back as the same slots |
| BankFile.WrittenKeysDecode | src/bank.rs:111-131 | the slot keys followed by "info" read back as the slots |
| BankFile.InfoKeyAfterSlots | src/bank.rs:126-131 | the "info" key pushed after the slot keys hides no slot key |
| BankFile.AccountSectionRoundTrip | src/bank.rs:133-151 | the account section is written exactly when the account and both sums fit, and holds the camera checksum and the account that reads back |
| BankFile.BankOfSections | src/bank.rs:205-255 | sections with those contents read back as the bank, whatever the version and signature |
| BankFile.BankRoundTrip | src/bank.rs:109-255 | writing a bank succeeds exactly within its limits, and reading the written document gives the same bank |
| NameOrder.NameLeTotal | src/bank.rs:36 | string comparison is total |
| NameOrder.NameLeAntisymmetric | src/bank.rs:36 | string comparison is antisymmetric |
| NameOrder.NameLeTransitive | src/bank.rs:36 | string comparison is transitive |
| NameOrder.InsertSorted | src/bank.rs:36 | inserting into a sorted sequence keeps it sorted and adds exactly the element |
| NameOrder.SortByNameSorted | src/bank.rs:36 | `sort_by` on names leaves the sequence sorted and a permutation of its input |
| NameOrder.SortSorted | src/bank.rs:40 | sorting an already sorted sequence changes nothing |
| NameOrder.SortedPermutationsEqual | src/bank.rs:36 | two sorted permutations with unique names are equal |
| NameOrder.UniqueNamesPermutation | src/bank.rs:36 | unique names stay unique under permutation |
| NameOrder.SortIgnoresOrder | src/bank.rs:36 | with unique names, the sorted result does not depend on the input order |
| Samples.PackedSnoc | src/starcode.rs:90-97 | storing one more field multiplies the accumulator by the field's radix and adds the field |
| Samples.SamplePacked | src/model.rs:358-396 | the test runling's fields, stored in `to_data`'s order, pack to 5152619043529182496416455320947104796722090727 |
| Samples.UncompressedPrefixes | src/starcode.rs:68-81 | when each running value extends the previous one by the next digit, every prefix of a numeral is worth its running value |
| Samples.SampleNumeral | src/starcode.rs:50-81 | `compress` writes that value as "7K2~Vhugn~6z8dLsyW_#n[u!" |
| Samples.ShiftDigits | src/starcode.rs:20-25 | shifting the character of digit `a` forward by the character of digit `e` gives the character of digit `(a + e) mod 89` |
| Samples.EncryptedDigits | src/starcode.rs:38-48 | a string spelling digits `sd` encrypts to the string spelling `rd` when each `rd[j]` is `sd[j]` plus the key digit of position `j`, modulo 89 |
| Samples.SampleEncrypted | src/starcode.rs:38-48 | `encrypt` turns that numeral into the blob "/Uni.I^uVUgUsr::M3I~IeI0" |
| Samples.RunlingEncodedAs | src/model.rs:323-396 | a runling whose fields pack to `n`, whose numeral is `numeral` and whose encryption is `blob` encodes to `blob`, and `blob` decodes back to it |
| Samples.RunlingSample | src/model.rs:415-433 | `from_data` of "/Uni.I^uVUgUsr::M3I~IeI0" is the test's runling, and `to_data` of that runling is the same blob |

## Left out

- SHA-1 and upper-case hex rendering (src/bank.rs:28-51) are library calls. `ComputeSignature` takes the digest as a parameter and models the text fed to the hasher.
- XML serialisation and deserialisation, and `to_correctly_formatted_bank` (src/bank.rs:54-108), are done by a library. `Key`, `Section` and `XmlBank` are plain datatypes, and the `Value` wrapper is folded into the key.
- `dbg!` (src/bank.rs:41) writes debug output to standard error.
- `main` (src/main.rs:500-524) is console output over hard-coded sample blobs.
- The record tests read their blobs from data files (src/model.rs:417 and src/model.rs:437) that are not part of this model. The runling blob that src/starcode.rs:105 and src/main.rs:501 write out is worked through the model (`Samples.RunlingSample`). The second unit-slot blob, the account blob and the camera blob of `main` (src/main.rs:501-503) are not worked through. Only the general round trips, proved for all records and blobs, apply to them.
- `usize` arithmetic is modelled by unbounded naturals. An overflowing checksum sum, and the `BigInt` to `usize` conversions in `compress` and `get_int`, are not modelled. Every stored value is bounded by a literal maximum well below `usize::MAX`.
- A panic is modelled as an `Err` result, not as unwinding.
- Rust's stable `sort_by` is modelled by a stable insertion sort. Only its result matters to the hashed text.
- `char_indices` gives byte offsets, and the model uses character positions. The two agree because every accepted character is ASCII.
- `HandleChecksum.GenerateChecksum` takes the runlings as a sequence and reuses the model.rs `Account` checksum. The src/main.rs copies of `Account`, `Runling` and their codecs are identical to the src/model.rs ones (src/main.rs:6-397).
