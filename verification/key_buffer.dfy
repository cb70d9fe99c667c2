/** The fixed-width key encoder of the benchmark (`KeyBuffer`): one prefix
    character followed by the ordinal written with printf's "%015d". */
module KeyBuffer {
  import opened Wrappers
  import opened Decimal
  import opened Bytewise

  /** sizeof(buffer_) */
  const BufferSize: nat := 1024
  /** prefix_ */
  const PrefixLen: nat := 1
  /** The field width of "%015d", and the digit count slice() exposes. */
  const DigitWidth: nat := 15
  /** The length of every key slice() returns. */
  const KeyLen: nat := PrefixLen + DigitWidth

  const Int32Min: int := -0x8000_0000
  const Int32Max: int := 0x7fff_ffff

  /** The values a C `int` can hold; Set takes an `int`. */
  predicate IsInt32(k: int) {
    Int32Min <= k <= Int32Max
  }

  /** The field holds 15 digits, and after a sign 14: bounds on what fits. */
  lemma FieldBounds()
    ensures Pow10(DigitWidth - 1) == 100_000_000_000_000
    ensures Pow10(DigitWidth) == 1_000_000_000_000_000
  {
    assert Pow10(4) == 10_000;
    assert Pow10(8) == 100_000_000;
    assert Pow10(12) == 1_000_000_000_000;
  }

  /** printf's "%015d": a '-' for a negative value, then the magnitude,
      filled with '0' after the sign until the whole text is 15 characters. */
  function Format(k: int): string {
    if k < 0 then "-" + PadLeft(Show(-k), DigitWidth - 1) else PadLeft(Show(k), DigitWidth)
  }

  /** Every `int` fits the field: the text is exactly 15 characters, and for a
      non-negative value it is the value's last 15 decimal digits. */
  lemma FormatWidth(k: int)
    requires IsInt32(k)
    ensures |Format(k)| == DigitWidth
    ensures k >= 0 ==> Format(k) == Fixed(k, DigitWidth)
    ensures k < 0 ==> Format(k) == "-" + Fixed(-k, DigitWidth - 1)
  {
    FieldBounds();
    if k < 0 {
      PaddedShowIsFixed(-k, DigitWidth - 1);
    } else {
      PaddedShowIsFixed(k, DigitWidth);
    }
  }

  /** The key for ordinal k under prefix c: what slice() returns after Set(k). */
  function Key(c: char, k: int): (key: string)
    requires IsInt32(k)
    ensures |key| == KeyLen && key[0] == c
  {
    FormatWidth(k);
    [c] + Format(k)
  }

  /** The characters of a key: the prefix, then the ordinal's last 15
      digits, or a '-' and the magnitude's last 14 digits. */
  lemma KeyDigits(c: char, k: int)
    requires IsInt32(k)
    ensures k >= 0 ==> Key(c, k) == [c] + Fixed(k, DigitWidth)
    ensures k < 0 ==> Key(c, k) == [c] + ("-" + Fixed(-k, DigitWidth - 1))
  {
    FormatWidth(k);
  }

  /** The buffer of a KeyBuffer: the prefix at the front, then whatever the
      last Set wrote, then bytes nobody has written. */
  datatype KeyBuffer = KeyBuffer(buffer: string) {

    predicate Valid() {
      |buffer| == BufferSize
    }

    /** slice(): the prefix and the 15 characters after it. */
    function Slice(): (s: string)
      requires Valid()
      ensures |s| == KeyLen && s[0] == buffer[0]
    {
      buffer[..KeyLen]
    }
  }

  /** KeyBuffer(c): the prefix byte is set to c; the rest of the buffer keeps
      whatever `uninit` holds, as C leaves it uninitialised. */
  function New(c: char, uninit: string): (kb: KeyBuffer)
    requires |uninit| == BufferSize
    ensures kb.Valid() && kb.buffer[0] == c
  {
    KeyBuffer([c] + uninit[PrefixLen..])
  }

  /** Set(k): snprintf writes Format(k) and its terminating NUL right after
      the prefix. The 1023 bytes it may use always suffice for an `int`. */
  function Set(kb: KeyBuffer, k: int): (kb': KeyBuffer)
    requires kb.Valid() && IsInt32(k)
    ensures kb'.Valid()
    ensures kb'.buffer[0] == kb.buffer[0]
    ensures kb'.Slice() == Key(kb.buffer[0], k)
    ensures kb'.buffer[KeyLen + 1..] == kb.buffer[KeyLen + 1..]
  {
    FormatWidth(k);
    var text := Format(k) + ['\0'];
    assert |text| <= BufferSize - PrefixLen;
    var buf := kb.buffer[..PrefixLen] + text + kb.buffer[PrefixLen + |text|..];
    assert buf[..KeyLen] == [kb.buffer[0]] + Format(k);
    KeyBuffer(buf)
  }

  /** Only the last ordinal set matters: Set overwrites the whole field. */
  lemma LastSetWins(kb: KeyBuffer, j: int, k: int)
    requires kb.Valid() && IsInt32(j) && IsInt32(k)
    ensures Set(Set(kb, j), k).Slice() == Set(kb, k).Slice()
  {
  }

  /** The ordinal a key encodes, when it has the shape Format writes. */
  function Ordinal(key: string): Option<int> {
    if |key| != KeyLen then None
    else if key[PrefixLen] == '-' && AllDigits(key[PrefixLen + 1..]) then Some(0 - Value(key[PrefixLen + 1..]))
    else if AllDigits(key[PrefixLen..]) then Some(Value(key[PrefixLen..]))
    else None
  }

  /** Decoding a key gives back its ordinal, for every `int`. */
  lemma OrdinalOfKey(c: char, k: int)
    requires IsInt32(k)
    ensures Ordinal(Key(c, k)) == Some(k)
  {
    if k < 0 {
      OrdinalOfNegativeKey(c, k);
    } else {
      OrdinalOfNonNegativeKey(c, k);
    }
  }

  lemma OrdinalOfNonNegativeKey(c: char, k: int)
    requires 0 <= k <= Int32Max
    ensures Ordinal(Key(c, k)) == Some(k)
  {
    FieldBounds();
    KeyDigits(c, k);
    var key, digits := Key(c, k), Fixed(k, DigitWidth);
    assert key[PrefixLen..] == digits;
    assert key[PrefixLen] != '-' by {
      assert IsDigit(digits[0]);
    }
    ValueOfFixed(k, DigitWidth);
  }

  lemma OrdinalOfNegativeKey(c: char, k: int)
    requires Int32Min <= k < 0
    ensures Ordinal(Key(c, k)) == Some(k)
  {
    FieldBounds();
    KeyDigits(c, k);
    var digits := Fixed(-k, DigitWidth - 1);
    ValueOfFixed(-k, DigitWidth - 1);
    SignedField(c, digits);
  }

  /** A '-' followed by 14 digits reads as the negated digit value. */
  lemma SignedField(c: char, digits: string)
    requires |digits| == DigitWidth - 1 && AllDigits(digits)
    ensures Ordinal([c] + ("-" + digits)) == Some(0 - Value(digits))
  {
    var key := [c] + ("-" + digits);
    assert key[PrefixLen] == '-' && key[PrefixLen + 1..] == digits;
  }

  /** The encoding is injective: equal keys have equal prefixes and ordinals. */
  lemma KeyInjective(c: char, d: char, j: int, k: int)
    requires IsInt32(j) && IsInt32(k)
    requires Key(c, j) == Key(d, k)
    ensures c == d && j == k
  {
    OrdinalOfKey(c, j);
    OrdinalOfKey(d, k);
  }

  /** Fixed-width digit fields sort like the numbers they hold. */
  lemma {:induction false} FixedLess(a: nat, b: nat, w: nat)
    requires a < b < Pow10(w)
    ensures Less(Fixed(a, w), Fixed(b, w))
  {
    var da, db := [DigitChar(a % 10)], [DigitChar(b % 10)];
    assert Fixed(a, w) == Fixed(a / 10, w - 1) + da;
    assert Fixed(b, w) == Fixed(b / 10, w - 1) + db;
    if a / 10 < b / 10 {
      FixedLess(a / 10, b / 10, w - 1);
      LessExtend(Fixed(a / 10, w - 1), Fixed(b / 10, w - 1), da, db);
    } else {
      LessCommonPrefix(Fixed(a / 10, w - 1), da, db);
    }
  }

  /** Keys of non-negative ordinals sort exactly as the ordinals do. */
  lemma KeyOrder(c: char, a: int, b: int)
    requires 0 <= a <= Int32Max && 0 <= b <= Int32Max
    ensures Less(Key(c, a), Key(c, b)) <==> a < b
  {
    var ka, kb := Key(c, a), Key(c, b);
    FieldBounds();
    KeyDigits(c, a);
    KeyDigits(c, b);
    if a < b {
      FixedLess(a, b, DigitWidth);
      LessCommonPrefix([c], Fixed(a, DigitWidth), Fixed(b, DigitWidth));
    } else if a == b {
      LessIrreflexive(ka);
    } else {
      FixedLess(b, a, DigitWidth);
      LessCommonPrefix([c], Fixed(b, DigitWidth), Fixed(a, DigitWidth));
      LessAsymmetric(kb, ka);
    }
  }

  /** Every lookup key (prefix 'b') sorts after, and so differs from, every
      write key (prefix 'a'). */
  lemma LookupKeysAfterWriteKeys(i: int, j: int)
    requires IsInt32(i) && IsInt32(j)
    ensures Less(Key('a', i), Key('b', j))
    ensures Key('a', i) != Key('b', j)
  {
  }
}
