/** Starcode: the text encoding every save-file value goes through
    (src/starcode.rs). A value is packed into one natural number by
    `StoreInt`, written as a base-89 numeral over `Alphabet` by `Compress`, and
    scrambled position by position with the repeating key `EncryptionKey` by
    `Encrypt`; `GetInt`, `Uncompress` and `Decrypt` undo the three steps. */
module Starcode {
  import opened Results

  /** The 89 starcode digits in digit-value order. The literal is written as
      short chunks only so that the verifier can index into it; joined, they
      are exactly the source's constant. */
  const Alphabet: string :=
    "0123456789" + ("abcdefghijklm" + ("nopqrstuvwxyz" + ("ABCDEFGHIJKLM"
    + ("NOPQRSTUVWXYZ" + ("!$%/()=?,.-;:_" + "^#+* @{[]}|~`")))))

  const EncryptionKey: string := "WalkerKey"

  /** `alphabet_index`'s search in `s`: the first position from `i` on
      whose character is `c`, and -1 when there is none. */
  function Position(s: string, c: char, i: nat): (r: int)
    requires i <= |s|
    ensures r == -1 || i <= r < |s|
    decreases |s| - i
  {
    if i == |s| then -1
    else if s[i] == c then i
    else Position(s, c, i + 1)
  }

  /** Whether `alphabet_index` finds `c` (its `unwrap` succeeds). */
  predicate InAlphabet(c: char) {
    0 <= Position(Alphabet, c, 0)
  }

  /** Whether every character of `s` is an alphabet character, so that
      `alphabet_index` succeeds on each; `AlphabetStringIff` states it
      position by position. */
  predicate IsAlphabetString(s: string)
    decreases |s|
  {
    s == "" || (InAlphabet(s[|s| - 1]) && IsAlphabetString(s[..|s| - 1]))
  }

  /** A string is an alphabet string exactly when each of its characters is
      in the alphabet. */
  lemma {:induction false} AlphabetStringIff(s: string)
    ensures IsAlphabetString(s) <==> forall i :: 0 <= i < |s| ==> InAlphabet(s[i])
    decreases |s|
  {
    if s != "" {
      var n := |s| - 1;
      AlphabetStringIff(s[..n]);
      if forall i :: 0 <= i < |s| ==> InAlphabet(s[i]) {
        assert forall i :: 0 <= i < n ==> s[..n][i] == s[i];
      }
    }
  }

  lemma AlphabetStringAt(s: string, i: nat)
    requires IsAlphabetString(s) && i < |s|
    ensures InAlphabet(s[i])
  {
    AlphabetStringIff(s);
  }

  lemma {:induction false} AlphabetSuffix(s: string, k: nat)
    requires IsAlphabetString(s) && k <= |s|
    ensures IsAlphabetString(s[k..])
    decreases |s|
  {
    if k < |s| {
      var n := |s| - 1;
      AlphabetSuffix(s[..n], k);
      assert s[k..][..n - k] == s[..n][k..];
    }
  }

  lemma {:induction false} AlphabetCons(c: char, t: string)
    requires InAlphabet(c) && IsAlphabetString(t)
    ensures IsAlphabetString([c] + t)
    decreases |t|
  {
    if t != "" {
      var n := |t| - 1;
      AlphabetCons(c, t[..n]);
      assert ([c] + t)[..n + 1] == [c] + t[..n];
    }
  }

  /** `alphabet_index`: the position of an alphabet character. The source
      unwraps the search, so a character outside the alphabet is a caller
      error. */
  function AlphabetIndex(c: char): (i: nat)
    requires InAlphabet(c)
    ensures i < 89
  {
    Position(Alphabet, c, 0)
  }

  /** `chars().nth(k)`: steps through the characters of `s` from position
      `i` until it reaches position `k`. */
  function NthFrom(s: string, i: nat, k: nat): char
    requires i <= k < |s|
    decreases k - i
  {
    if i == k then s[i] else NthFrom(s, i + 1, k)
  }

  /** `ALPHABET.chars().nth(k).unwrap()`: the digit of value `k`. */
  function DigitAt(k: nat): (r: char)
    requires k < 89
  {
    NthFrom(Alphabet, 0, k)
  }

  lemma {:induction false} NthFromIsIndex(s: string, i: nat, k: nat)
    requires i <= k < |s|
    ensures NthFrom(s, i, k) == s[k]
    decreases k - i
  {
    if i < k {
      NthFromIsIndex(s, i + 1, k);
    }
  }

  /** A successful search stops at a position holding `c`, and no earlier
      position from `i` on holds it; a failed one passed no position
      holding `c`. */
  lemma {:induction false} PositionFound(s: string, c: char, i: nat)
    requires i <= |s|
    ensures Position(s, c, i) >= 0 ==> s[Position(s, c, i)] == c
    ensures forall j :: i <= j < |s| && (Position(s, c, i) == -1 || j < Position(s, c, i)) ==> s[j] != c
    decreases |s| - i
  {
    if i < |s| && s[i] != c {
      PositionFound(s, c, i + 1);
    }
  }

  /** The search for a character that appears nowhere between `i` and its
      own position `k` ends at `k`. */
  lemma {:induction false} PositionOfFirst(s: string, i: nat, k: nat)
    requires i <= k < |s|
    requires forall j :: i <= j < k ==> s[j] != s[k]
    ensures Position(s, s[k], i) == k
    decreases k - i
  {
    if i < k {
      PositionOfFirst(s, i + 1, k);
    }
  }

  /** The digit value of each alphabet character by character ranges, and
      -1 for every other character: a reference table independent of the
      search, which shows that no character occurs twice in `Alphabet`. */
  function DigitValue(c: char): int {
    if '0' <= c <= '9' then c as int - '0' as int
    else if 'a' <= c <= 'z' then c as int - 'a' as int + 10
    else if 'A' <= c <= 'Z' then c as int - 'A' as int + 36
    else match c
      case '!' => 62 case '$' => 63 case '%' => 64 case '/' => 65 case '(' => 66
      case ')' => 67 case '=' => 68 case '?' => 69 case ',' => 70 case '.' => 71
      case '-' => 72 case ';' => 73 case ':' => 74 case '_' => 75 case '^' => 76
      case '#' => 77 case '+' => 78 case '*' => 79 case ' ' => 80 case '@' => 81
      case '{' => 82 case '[' => 83 case ']' => 84 case '}' => 85 case '|' => 86
      case '~' => 87 case '`' => 88
      case _ => -1
  }


  /** The decoding table agrees with the source's constant at every
      position. */
  lemma DigitValueOfAlphabet(i: int)
    requires 0 <= i < |Alphabet|
    ensures DigitValue(Alphabet[i]) == i
  {
    DecimalChunk();
    LowerChunk1();
    LowerChunk2();
    UpperChunk1();
    UpperChunk2();
    SymbolChunk1();
    SymbolChunk2();
    ConsecutiveDigitsAppend("!$%/()=?,.-;:_", "^#+* @{[]}|~`", 62);
    ConsecutiveDigitsAppend("NOPQRSTUVWXYZ", "!$%/()=?,.-;:_" + "^#+* @{[]}|~`", 49);
    ConsecutiveDigitsAppend("ABCDEFGHIJKLM", "NOPQRSTUVWXYZ" + ("!$%/()=?,.-;:_" + "^#+* @{[]}|~`"), 36);
    ConsecutiveDigitsAppend("nopqrstuvwxyz", "ABCDEFGHIJKLM" + ("NOPQRSTUVWXYZ" + ("!$%/()=?,.-;:_" + "^#+* @{[]}|~`")), 23);
    ConsecutiveDigitsAppend("abcdefghijklm", "nopqrstuvwxyz" + ("ABCDEFGHIJKLM" + ("NOPQRSTUVWXYZ" + ("!$%/()=?,.-;:_" + "^#+* @{[]}|~`"))), 10);
    ConsecutiveDigitsAppend("0123456789", "abcdefghijklm" + ("nopqrstuvwxyz" + ("ABCDEFGHIJKLM" + ("NOPQRSTUVWXYZ" + ("!$%/()=?,.-;:_" + "^#+* @{[]}|~`")))), 0);
  }

  /** `s` holds the digits of values `lo`, `lo + 1`, ... in order. */
  predicate ConsecutiveDigits(s: string, lo: nat) {
    forall j :: 0 <= j < |s| ==> DigitValue(s[j]) == lo + j
  }

  lemma ConsecutiveDigitsAppend(a: string, b: string, lo: nat)
    requires ConsecutiveDigits(a, lo) && ConsecutiveDigits(b, lo + |a|)
    ensures ConsecutiveDigits(a + b, lo)
  {
    forall j | 0 <= j < |a + b|
      ensures DigitValue((a + b)[j]) == lo + j
    {
      if j >= |a| {
        assert (a + b)[j] == b[j - |a|];
      }
    }
  }

  // One lemma per chunk of `Alphabet` keeps each case analysis small.

  lemma DecimalChunk()
    ensures ConsecutiveDigits("0123456789", 0)
  {
    forall j | 0 <= j < 10
      ensures DigitValue("0123456789"[j]) == 0 + j
    {
      match j
      case 0 => case 1 => case 2 => case 3 => case 4 => case 5 => case 6 => case 7 => case 8 => case _ =>
    }
  }

  lemma LowerChunk1()
    ensures ConsecutiveDigits("abcdefghijklm", 10)
  {
    forall j | 0 <= j < 13
      ensures DigitValue("abcdefghijklm"[j]) == 10 + j
    {
      match j
      case 0 => case 1 => case 2 => case 3 => case 4 => case 5 => case 6 => case 7 => case 8 => case 9 => case 10 => case 11 => case _ =>
    }
  }

  lemma LowerChunk2()
    ensures ConsecutiveDigits("nopqrstuvwxyz", 23)
  {
    forall j | 0 <= j < 13
      ensures DigitValue("nopqrstuvwxyz"[j]) == 23 + j
    {
      match j
      case 0 => case 1 => case 2 => case 3 => case 4 => case 5 => case 6 => case 7 => case 8 => case 9 => case 10 => case 11 => case _ =>
    }
  }

  lemma UpperChunk1()
    ensures ConsecutiveDigits("ABCDEFGHIJKLM", 36)
  {
    forall j | 0 <= j < 13
      ensures DigitValue("ABCDEFGHIJKLM"[j]) == 36 + j
    {
      match j
      case 0 => case 1 => case 2 => case 3 => case 4 => case 5 => case 6 => case 7 => case 8 => case 9 => case 10 => case 11 => case _ =>
    }
  }

  lemma UpperChunk2()
    ensures ConsecutiveDigits("NOPQRSTUVWXYZ", 49)
  {
    forall j | 0 <= j < 13
      ensures DigitValue("NOPQRSTUVWXYZ"[j]) == 49 + j
    {
      match j
      case 0 => case 1 => case 2 => case 3 => case 4 => case 5 => case 6 => case 7 => case 8 => case 9 => case 10 => case 11 => case _ =>
    }
  }

  lemma SymbolChunk1()
    ensures ConsecutiveDigits("!$%/()=?,.-;:_", 62)
  {
    forall j | 0 <= j < 14
      ensures DigitValue("!$%/()=?,.-;:_"[j]) == 62 + j
    {
      match j
      case 0 => case 1 => case 2 => case 3 => case 4 => case 5 => case 6 => case 7 => case 8 => case 9 => case 10 => case 11 => case 12 => case _ =>
    }
  }

  lemma SymbolChunk2()
    ensures ConsecutiveDigits("^#+* @{[]}|~`", 76)
  {
    forall j | 0 <= j < 13
      ensures DigitValue("^#+* @{[]}|~`"[j]) == 76 + j
    {
      match j
      case 0 => case 1 => case 2 => case 3 => case 4 => case 5 => case 6 => case 7 => case 8 => case 9 => case 10 => case 11 => case _ =>
    }
  }

  /** No character occurs twice in the alphabet. */
  lemma AlphabetDistinct(j: nat, k: nat)
    requires j < k < 89
    ensures Alphabet[j] != Alphabet[k]
  {
    DigitValueOfAlphabet(j);
    DigitValueOfAlphabet(k);
  }

  /** The digit of value `k` is an alphabet character, and the search finds
      it at `k`. */
  lemma DigitIndex(k: nat)
    requires k < 89
    ensures InAlphabet(DigitAt(k)) && AlphabetIndex(DigitAt(k)) == k
  {
    NthFromIsIndex(Alphabet, 0, k);
    forall j | 0 <= j < k
      ensures Alphabet[j] != Alphabet[k]
    {
      AlphabetDistinct(j, k);
    }
    PositionOfFirst(Alphabet, 0, k);
  }

  /** Every alphabet character is the digit of its index. */
  lemma DigitAtIndex(c: char)
    requires InAlphabet(c)
    ensures DigitAt(AlphabetIndex(c)) == c
  {
    PositionFound(Alphabet, c, 0);
    NthFromIsIndex(Alphabet, 0, AlphabetIndex(c));
  }

  /** The search and the reference table agree on every alphabet
      character. */
  lemma AlphabetIndexIsDigitValue(c: char)
    requires InAlphabet(c)
    ensures AlphabetIndex(c) == DigitValue(c)
  {
    PositionFound(Alphabet, c, 0);
    DigitValueOfAlphabet(AlphabetIndex(c));
  }

  /** The search of `alphabet_index` succeeds exactly on the characters of
      the constant. */
  lemma InAlphabetIsMember(c: char)
    ensures InAlphabet(c) <==> c in Alphabet
  {
    PositionFound(Alphabet, c, 0);
  }

  /** The digit '0' is the digit of value zero and of no other value. */
  lemma ZeroDigit(k: nat)
    requires k < 89
    ensures DigitAt(k) == '0' <==> k == 0
  {
    DigitIndex(k);
    DigitIndex(0);
  }

  /** Every character of the key is an alphabet character. */
  lemma KeyInAlphabet()
    ensures forall i :: 0 <= i < |EncryptionKey| ==> InAlphabet(EncryptionKey[i])
  {
    AlphabetAt(58, 'W');
    AlphabetAt(10, 'a');
    AlphabetAt(21, 'l');
    AlphabetAt(20, 'k');
    AlphabetAt(14, 'e');
    AlphabetAt(27, 'r');
    AlphabetAt(46, 'K');
    AlphabetAt(34, 'y');
  }

  /** The character at position `k` of the constant is an alphabet
      character. */
  lemma AlphabetAt(k: nat, c: char)
    requires k < 89 && Alphabet[k] == c
    ensures InAlphabet(c)
  {
    DigitIndex(k);
    NthFromIsIndex(Alphabet, 0, k);
  }

  /** Adding a whole turn of the alphabet first, as the source does to stay
      unsigned, does not change the residue. */
  lemma AddTurn(a: nat, e: nat)
    requires a < 89 && e < 89
    ensures ((a + 89) + e) % 89 == (a + e) % 89
  {
  }

  lemma SubTurn(a: nat, e: nat)
    requires a < 89 && e < 89
    ensures ((a + 89) - e) % 89 == (a - e) % 89
  {
  }

  /** `shift_forward`: moves `c` forward by the digit value of `d`, modulo 89. */
  function ShiftForward(c: char, d: char): (r: char)
    requires InAlphabet(c) && InAlphabet(d)
    ensures InAlphabet(r)
    ensures AlphabetIndex(r) == (AlphabetIndex(c) + AlphabetIndex(d)) % 89
  {
    ForwardDigit(AlphabetIndex(c), AlphabetIndex(d));
    DigitAt(((AlphabetIndex(c) + 89) + AlphabetIndex(d)) % 89)
  }

  /** The digit `shift_forward` picks has index `a + e` modulo 89. */
  lemma ForwardDigit(a: nat, e: nat)
    requires a < 89 && e < 89
    ensures InAlphabet(DigitAt(((a + 89) + e) % 89))
    ensures AlphabetIndex(DigitAt(((a + 89) + e) % 89)) == (a + e) % 89
  {
    AddTurn(a, e);
    DigitIndex(((a + 89) + e) % 89);
  }

  /** `shift_backward`: moves `c` back by the digit value of `d`, modulo 89. */
  function ShiftBackward(c: char, d: char): (r: char)
    requires InAlphabet(c) && InAlphabet(d)
    ensures InAlphabet(r)
    ensures AlphabetIndex(r) == (AlphabetIndex(c) - AlphabetIndex(d)) % 89
  {
    BackwardDigit(AlphabetIndex(c), AlphabetIndex(d));
    DigitAt(((AlphabetIndex(c) + 89) - AlphabetIndex(d)) % 89)
  }

  /** The digit `shift_backward` picks has index `a - e` modulo 89. */
  lemma BackwardDigit(a: nat, e: nat)
    requires a < 89 && e < 89
    ensures InAlphabet(DigitAt(((a + 89) - e) % 89))
    ensures AlphabetIndex(DigitAt(((a + 89) - e) % 89)) == (a - e) % 89
  {
    SubTurn(a, e);
    DigitIndex(((a + 89) - e) % 89);
  }

  lemma TurnInverse(a: nat, e: nat)
    requires a < 89 && e < 89
    ensures ((a + e) % 89 - e) % 89 == a
    ensures ((a - e) % 89 + e) % 89 == a
  {
    if a + e < 89 {
      assert (a + e) % 89 == a + e;
    } else {
      assert (a + e) % 89 == a + e - 89;
      assert (a - 89) % 89 == a;
    }
    if a >= e {
      assert (a - e) % 89 == a - e;
    } else {
      assert (a - e) % 89 == a - e + 89;
      assert (a + 89) % 89 == a;
    }
  }

  /** A character of the alphabet is determined by its index. */
  lemma IndexInjective(x: char, y: char)
    requires InAlphabet(x) && InAlphabet(y)
    requires AlphabetIndex(x) == AlphabetIndex(y)
    ensures x == y
  {
    DigitAtIndex(x);
    DigitAtIndex(y);
  }

  /** Shifting back by `d` gives `c` from any character whose index is
      `c`'s shifted forward by `d`. */
  lemma ShiftBackwardTo(x: char, d: char, c: char)
    requires InAlphabet(x) && InAlphabet(d) && InAlphabet(c)
    requires AlphabetIndex(x) == (AlphabetIndex(c) + AlphabetIndex(d)) % 89
    ensures ShiftBackward(x, d) == c
  {
    TurnInverse(AlphabetIndex(c), AlphabetIndex(d));
    IndexInjective(ShiftBackward(x, d), c);
  }

  /** Shifting forward by `d` gives `c` from any character whose index is
      `c`'s shifted back by `d`. */
  lemma ShiftForwardTo(x: char, d: char, c: char)
    requires InAlphabet(x) && InAlphabet(d) && InAlphabet(c)
    requires AlphabetIndex(x) == (AlphabetIndex(c) - AlphabetIndex(d)) % 89
    ensures ShiftForward(x, d) == c
  {
    TurnInverse(AlphabetIndex(c), AlphabetIndex(d));
    IndexInjective(ShiftForward(x, d), c);
  }

  /** Shifting back undoes shifting forward by the same key character. */
  lemma ShiftBackwardForward(c: char, d: char)
    requires InAlphabet(c) && InAlphabet(d)
    ensures ShiftBackward(ShiftForward(c, d), d) == c
  {
    ShiftBackwardTo(ShiftForward(c, d), d, c);
  }

  /** Shifting forward undoes shifting back by the same key character. */
  lemma ShiftForwardBackward(c: char, d: char)
    requires InAlphabet(c) && InAlphabet(d)
    ensures ShiftForward(ShiftBackward(c, d), d) == c
  {
    ShiftForwardTo(ShiftBackward(c, d), d, c);
  }

  /** The key character used at position `i`. */
  function KeyChar(i: nat): (k: char)
    ensures InAlphabet(k)
  {
    KeyInAlphabet();
    NthFromIsIndex(EncryptionKey, 0, i % |EncryptionKey|);
    NthFrom(EncryptionKey, 0, i % |EncryptionKey|)
  }

  /** What `encrypt` returns: position `i` shifted forward by `KeyChar(i)`. */
  function Encrypted(s: string): (r: string)
    requires IsAlphabetString(s)
    ensures |r| == |s|
  {
    EncryptedFrom(s, 0)
  }

  /** The part of `encrypt`'s output produced from position `i` on. */
  function EncryptedFrom(s: string, i: nat): (r: string)
    requires IsAlphabetString(s) && i <= |s|
    ensures |r| == |s| - i
    decreases |s| - i
  {
    if i == |s| then ""
    else
      AlphabetStringAt(s, i);
      [ShiftForward(s[i], KeyChar(i))] + EncryptedFrom(s, i + 1)
  }

  lemma {:induction false} EncryptedFromAt(s: string, j: nat, i: nat)
    requires IsAlphabetString(s) && j <= i < |s|
    ensures InAlphabet(s[i]) && EncryptedFrom(s, j)[i - j] == ShiftForward(s[i], KeyChar(i))
    decreases i - j
  {
    AlphabetStringAt(s, i);
    if j < i {
      EncryptedFromAt(s, j + 1, i);
      AlphabetStringAt(s, j);
      var rest := EncryptedFrom(s, j + 1);
      assert EncryptedFrom(s, j) == [ShiftForward(s[j], KeyChar(j))] + rest;
      assert EncryptedFrom(s, j)[i - j] == rest[i - (j + 1)];
    }
  }

  /** The output is again written in the alphabet. */
  lemma EncryptedIsAlphabet(s: string)
    requires IsAlphabetString(s)
    ensures IsAlphabetString(Encrypted(s))
  {
    forall i | 0 <= i < |s|
      ensures InAlphabet(Encrypted(s)[i])
    {
      EncryptedAt(s, i);
    }
    AlphabetStringIff(Encrypted(s));
  }

  /** Position `i` of the output is position `i` of the input shifted
      forward by the key character of position `i`. */
  lemma EncryptedAt(s: string, i: nat)
    requires IsAlphabetString(s) && i < |s|
    ensures InAlphabet(s[i]) && Encrypted(s)[i] == ShiftForward(s[i], KeyChar(i))
  {
    EncryptedFromAt(s, 0, i);
  }

  /** What `decrypt` returns: position `i` shifted back by `KeyChar(i)`. */
  function Decrypted(s: string): (r: string)
    requires IsAlphabetString(s)
    ensures |r| == |s|
  {
    DecryptedFrom(s, 0)
  }

  /** The part of `decrypt`'s output produced from position `i` on. */
  function DecryptedFrom(s: string, i: nat): (r: string)
    requires IsAlphabetString(s) && i <= |s|
    ensures |r| == |s| - i
    decreases |s| - i
  {
    if i == |s| then ""
    else
      AlphabetStringAt(s, i);
      [ShiftBackward(s[i], KeyChar(i))] + DecryptedFrom(s, i + 1)
  }

  lemma {:induction false} DecryptedFromAt(s: string, j: nat, i: nat)
    requires IsAlphabetString(s) && j <= i < |s|
    ensures InAlphabet(s[i]) && DecryptedFrom(s, j)[i - j] == ShiftBackward(s[i], KeyChar(i))
    decreases i - j
  {
    AlphabetStringAt(s, i);
    if j < i {
      DecryptedFromAt(s, j + 1, i);
      AlphabetStringAt(s, j);
      var rest := DecryptedFrom(s, j + 1);
      assert DecryptedFrom(s, j) == [ShiftBackward(s[j], KeyChar(j))] + rest;
      assert DecryptedFrom(s, j)[i - j] == rest[i - (j + 1)];
    }
  }

  /** The output is again written in the alphabet. */
  lemma DecryptedIsAlphabet(s: string)
    requires IsAlphabetString(s)
    ensures IsAlphabetString(Decrypted(s))
  {
    forall i | 0 <= i < |s|
      ensures InAlphabet(Decrypted(s)[i])
    {
      DecryptedAt(s, i);
    }
    AlphabetStringIff(Decrypted(s));
  }

  /** Position `i` of the output is position `i` of the input shifted
      back by the key character of position `i`. */
  lemma DecryptedAt(s: string, i: nat)
    requires IsAlphabetString(s) && i < |s|
    ensures InAlphabet(s[i]) && Decrypted(s)[i] == ShiftBackward(s[i], KeyChar(i))
  {
    DecryptedFromAt(s, 0, i);
  }

  method Encrypt(s: string) returns (r: string)
    requires IsAlphabetString(s)
    ensures r == Encrypted(s)
  {
    KeyInAlphabet();
    r := "";
    for i := 0 to |s|
      invariant r + EncryptedFrom(s, i) == Encrypted(s)
    {
      AlphabetStringAt(s, i);
      var keyIndex := i % |EncryptionKey|;
      var c := ShiftForward(s[i], NthFrom(EncryptionKey, 0, keyIndex));
      AppendAssoc(r, [c], EncryptedFrom(s, i + 1));
      r := r + [c];
    }
  }

  method Decrypt(s: string) returns (r: string)
    requires IsAlphabetString(s)
    ensures r == Decrypted(s) && IsAlphabetString(r)
  {
    DecryptedIsAlphabet(s);
    KeyInAlphabet();
    r := "";
    for i := 0 to |s|
      invariant r + DecryptedFrom(s, i) == Decrypted(s)
    {
      AlphabetStringAt(s, i);
      var keyIndex := i % |EncryptionKey|;
      var c := ShiftBackward(s[i], NthFrom(EncryptionKey, 0, keyIndex));
      AppendAssoc(r, [c], DecryptedFrom(s, i + 1));
      r := r + [c];
    }
  }

  lemma DecryptEncrypt(s: string)
    requires IsAlphabetString(s)
    ensures IsAlphabetString(Encrypted(s)) && Decrypted(Encrypted(s)) == s
  {
    EncryptedIsAlphabet(s);
    forall i | 0 <= i < |s|
      ensures Decrypted(Encrypted(s))[i] == s[i]
    {
      DecryptedAt(Encrypted(s), i);
      EncryptedAt(s, i);
      ShiftBackwardForward(s[i], KeyChar(i));
    }
  }

  lemma EncryptDecrypt(s: string)
    requires IsAlphabetString(s)
    ensures IsAlphabetString(Decrypted(s)) && Encrypted(Decrypted(s)) == s
  {
    DecryptedIsAlphabet(s);
    forall i | 0 <= i < |s|
      ensures Encrypted(Decrypted(s))[i] == s[i]
    {
      EncryptedAt(Decrypted(s), i);
      DecryptedAt(s, i);
      ShiftForwardBackward(s[i], KeyChar(i));
    }
  }

  function Pow(b: nat, e: nat): nat {
    if e == 0 then 1 else b * Pow(b, e - 1)
  }

  lemma MulLe(a: nat, b: nat, d: nat)
    requires a <= b
    ensures a * d <= b * d
  {
    assert b * d == a * d + (b - a) * d;
  }

  /** Division and remainder of `q * d + r` by `d` recover `q` and `r`. */
  lemma DivModOf(q: nat, r: nat, d: nat)
    requires r < d
    ensures (q * d + r) / d == q && (q * d + r) % d == r
  {
    var n := q * d + r;
    var q', r' := n / d, n % d;
    assert q' * d + r' == n;
    if q' < q {
      MulLe(q' + 1, q, d);
      assert false;
    } else if q' > q {
      MulLe(q + 1, q', d);
      assert false;
    }
  }

  /** What `compress` returns: the base-89 numeral of `n`, most significant
      digit first, with the empty string for zero. `CompressedIsAlphabet`
      shows it is written in the alphabet, `CompressedLeadingDigit` that it
      never starts with a zero digit. */
  function Compressed(n: nat): (s: string)
    ensures n == 0 <==> s == ""
    decreases n
  {
    if n == 0 then ""
    else
      var high := n / 89;
      if high == 0 then [DigitAt(n)]
      else Compressed(high) + [DigitAt(n % 89)]
  }

  /** Every digit of a numeral is an alphabet character. */
  lemma {:induction false} CompressedIsAlphabet(n: nat)
    ensures IsAlphabetString(Compressed(n))
    decreases n
  {
    if n != 0 {
      var high := n / 89;
      DigitIndex(n % 89);
      if high == 0 {
        assert Compressed(n) == [DigitAt(n % 89)];
        AlphabetSnoc("", DigitAt(n % 89));
      } else {
        CompressedIsAlphabet(high);
        AlphabetSnoc(Compressed(high), DigitAt(n % 89));
      }
    }
  }

  /** The numeral of a nonzero value does not start with the zero digit. */
  lemma {:induction false} CompressedLeadingDigit(n: nat)
    requires n != 0
    ensures Compressed(n)[0] != '0'
    decreases n
  {
    var high := n / 89;
    if high == 0 {
      ZeroDigit(n);
    } else {
      CompressedLeadingDigit(high);
    }
  }

  lemma AlphabetSnoc(s: string, c: char)
    requires IsAlphabetString(s) && InAlphabet(c)
    ensures IsAlphabetString(s + [c])
  {
  }

  /** What `uncompress` returns: the value of the base-89 numeral `s`, which
      is below `89^|s|`. */
  function Uncompressed(s: string): (n: nat)
    requires IsAlphabetString(s)
    ensures n < Pow(89, |s|)
    decreases |s|
  {
    if s == "" then 0
    else
      var prefix := s[..|s| - 1];
      var high := Uncompressed(prefix);
      var digit := AlphabetIndex(s[|s| - 1]);
      assert high * 89 + digit < Pow(89, |s|) by {
        assert high + 1 <= Pow(89, |prefix|);
        assert (high + 1) * 89 <= Pow(89, |prefix|) * 89;
      }
      high * 89 + digit
  }

  /** Reversal, the `.chars().rev()` of `compress`. */
  function Reverse(s: string): (r: string)
    ensures |r| == |s|
    decreases |s|
  {
    if s == "" then "" else [s[|s| - 1]] + Reverse(s[..|s| - 1])
  }

  /** The numeral of a nonzero `m` is the numeral of `m / 89` followed by
      the digit of `m % 89`. */
  lemma CompressedStep(m: nat)
    requires m != 0
    ensures Compressed(m) == Compressed(m / 89) + [DigitAt(m % 89)]
  {
  }

  lemma ReverseSnoc(s: string, c: char)
    ensures Reverse(s + [c]) == [c] + Reverse(s)
  {
    assert (s + [c])[..|s|] == s;
  }

  lemma AppendAssoc(a: string, b: string, c: string)
    ensures (a + b) + c == a + (b + c)
  {
  }

  method Compress(n: nat) returns (s: string)
    ensures s == Compressed(n) && IsAlphabetString(s)
  {
    CompressedIsAlphabet(n);
    var m: nat := n;
    var reversed := "";
    while m != 0
      invariant Compressed(n) == Compressed(m) + Reverse(reversed)
      decreases m
    {
      var digit := DigitAt(m % 89);
      CompressedStep(m);
      ReverseSnoc(reversed, digit);
      AppendAssoc(Compressed(m / 89), [digit], Reverse(reversed));
      reversed := reversed + [digit];
      m := m / 89;
    }
    s := Reverse(reversed);
  }

  /** One more low digit below `x * p + u`. */
  lemma ShiftDigitIn(x: nat, p: nat, u: nat, d: nat)
    ensures (x * p + u) * 89 + d == x * (89 * p) + (u * 89 + d)
  {
    assert (x * p + u) * 89 == (x * p) * 89 + u * 89;
    assert (x * p) * 89 == x * (89 * p);
  }

  /** The value of a numeral whose first digit is `c`. */
  lemma {:induction false} UncompressedCons(c: char, t: string)
    requires InAlphabet(c) && IsAlphabetString(t)
    ensures IsAlphabetString([c] + t)
    ensures Uncompressed([c] + t) == AlphabetIndex(c) * Pow(89, |t|) + Uncompressed(t)
    decreases |t|
  {
    var s := [c] + t;
    AlphabetCons(c, t);
    if t != "" {
      var t' := t[..|t| - 1];
      assert s[..|s| - 1] == [c] + t';
      assert s[|s| - 1] == t[|t| - 1];
      UncompressedCons(c, t');
      var d := AlphabetIndex(t[|t| - 1]);
      var p := Pow(89, |t'|);
      assert Uncompressed(s) == Uncompressed([c] + t') * 89 + d;
      assert Uncompressed(t) == Uncompressed(t') * 89 + d;
      assert Pow(89, |t|) == 89 * p;
      ShiftDigitIn(AlphabetIndex(c), p, Uncompressed(t'), d);
    }
  }

  method Uncompress(s: string) returns (n: nat)
    requires IsAlphabetString(s)
    ensures n == Uncompressed(s)
  {
    var power: nat := 1;
    n := 0;
    var k := |s|;
    while k > 0
      invariant 0 <= k <= |s|
      invariant power == Pow(89, |s| - k)
      invariant IsAlphabetString(s[k..])
      invariant n == Uncompressed(s[k..])
    {
      k := k - 1;
      AlphabetStringAt(s, k);
      AlphabetSuffix(s, k);
      assert s[k..] == [s[k]] + s[k + 1..];
      UncompressedCons(s[k], s[k + 1..]);
      assert |s[k + 1..]| == |s| - (k + 1);
      n := AlphabetIndex(s[k]) * power + n;
      power := power * 89;
    }
    assert s[0..] == s;
  }

  /** `uncompress(compress(n)) == n` for every natural `n`. */
  lemma {:induction false} UncompressCompress(n: nat)
    ensures IsAlphabetString(Compressed(n)) && Uncompressed(Compressed(n)) == n
    decreases n
  {
    CompressedIsAlphabet(n);
    if n != 0 {
      var high := n / 89;
      var s := Compressed(n);
      if high == 0 {
        DigitIndex(n);
      } else {
        UncompressCompress(high);
        DigitIndex(n % 89);
        assert s[..|s| - 1] == Compressed(high);
      }
    }
  }

  lemma SplitLast(s: string)
    requires s != ""
    ensures s == s[..|s| - 1] + [s[|s| - 1]]
  {
  }

  /** `compress(uncompress(s)) == s` for every numeral without a leading
      zero digit. */
  lemma {:induction false} CompressUncompress(s: string)
    requires IsAlphabetString(s)
    requires s == "" || s[0] != '0'
    ensures Compressed(Uncompressed(s)) == s
    decreases |s|
  {
    if s != "" {
      var prefix, last := s[..|s| - 1], s[|s| - 1];
      var high, digit := Uncompressed(prefix), AlphabetIndex(last);
      if prefix == "" {
        ZeroDigit(digit);
      } else {
        assert prefix[0] == s[0];
        CompressUncompress(prefix);
      }
      CompressedDigits(high, digit);
      DigitAtIndex(last);
      SplitLast(s);
    }
  }

  /** The numeral of `high * 89 + digit` is that of `high` followed by the
      digit of `digit`. */
  lemma CompressedDigits(high: nat, digit: nat)
    requires digit < 89 && (high != 0 || digit != 0)
    ensures Compressed(high * 89 + digit) == Compressed(high) + [DigitAt(digit)]
  {
    DivModOf(high, digit, 89);
    CompressedStep(high * 89 + digit);
  }

  /** What `store_int` leaves in the accumulator: `val` becomes the lowest
      digit, of radix `maxVal + 1`, above the previous accumulator. */
  function Store(acc: nat, val: nat, maxVal: nat): (r: nat)
    requires val <= maxVal
  {
    acc * (maxVal + 1) + val
  }

  /** What `get_int` returns and leaves: the lowest digit of radix
      `maxVal + 1`, and the accumulator above it. */
  function Extract(acc: nat, maxVal: nat): (r: (nat, nat))
    ensures r.0 <= maxVal
  {
    (acc % (maxVal + 1), acc / (maxVal + 1))
  }

  /** `store_int`: the accumulator is passed in and the updated one returned.
      The source asserts `val <= max_val`; a failed assertion is
      `ValueOutOfRange`. */
  method StoreInt(acc: nat, val: nat, maxVal: nat) returns (r: Result<nat>)
    ensures val <= maxVal ==> r == Ok(Store(acc, val, maxVal))
    ensures val > maxVal ==> r == Err(ValueOutOfRange)
  {
    if val > maxVal {
      return Err(ValueOutOfRange);
    }
    r := Ok(acc * (maxVal + 1) + val);
  }

  /** `get_int`: returns the extracted value and the updated accumulator. */
  method GetInt(acc: nat, maxVal: nat) returns (val: nat, acc': nat)
    ensures (val, acc') == Extract(acc, maxVal)
  {
    val := acc % (maxVal + 1);
    acc' := acc / (maxVal + 1);
  }

  /** The accumulator is a stack: extracting right after storing with the
      same maximum gives back the stored value and the previous
      accumulator. */
  lemma ExtractStore(acc: nat, val: nat, maxVal: nat)
    requires val <= maxVal
    ensures Extract(Store(acc, val, maxVal), maxVal) == (val, acc)
  {
    DivModOf(acc, val, maxVal + 1);
  }

  /** Storing back what was extracted restores the accumulator. */
  lemma StoreExtract(acc: nat, maxVal: nat)
    ensures Store(Extract(acc, maxVal).1, Extract(acc, maxVal).0, maxVal) == acc
  {
    var d := maxVal + 1;
    assert acc == (acc / d) * d + acc % d;
  }
}
