/** The versioned write lock: one 64-bit word holding a version in its upper 63 bits
    and the lock bit in bit 0. The raw word is what the library stores; the pair
    `Word(version, locked)` is what the protocol reasons about. */
module LockWord {

  const WORD_SIZE := 0x1_0000_0000_0000_0000
  const VERSION_LIMIT := 0x8000_0000_0000_0000

  /** Versions at or above this bound do not survive `unlock`, whose mask is 32 bits wide. */
  const UNLOCK_LIMIT := 0x8000_0000

  type Raw = w: int | 0 <= w < WORD_SIZE

  datatype Word = Word(version: nat, locked: bool)

  function Decode(w: Raw): Word {
    Word(w / 2, w % 2 == 1)
  }

  function Encode(w: Word): Raw
    requires w.version < VERSION_LIMIT
  {
    2 * w.version + (if w.locked then 1 else 0)
  }

  // ---- The operations on raw words; bit masks and shifts are written arithmetically ----

  /** `w & ~1`: the mask is a signed int, so it is sign-extended and keeps all upper bits. */
  function RawExpected(w: Raw): Raw {
    w - w % 2
  }

  /** `expected | 1` */
  function RawDesired(expected: Raw): Raw {
    if expected % 2 == 1 then expected else expected + 1
  }

  /** The word after `lock()`, and whether it was taken; `loaded` is the word at the load, `current` the word at
      the exchange, which may also fail spuriously. */
  function RawLock(loaded: Raw, current: Raw, spurious: bool): (Raw, bool) {
    if current == RawExpected(loaded) && !spurious then (RawDesired(RawExpected(loaded)), true) else (current, false)
  }

  /** `w & ~1u`: the mask is an unsigned int, so it is zero-extended and clears the upper 32 bits. */
  function RawUnlock(w: Raw): Raw {
    w % 0x1_0000_0000 - w % 2
  }

  /** `v << 1`, truncated to the word */
  function RawSetVersion(v: Raw): Raw {
    (2 * v) % WORD_SIZE
  }

  // ---- The same operations on decoded words ----

  function Unlocked(version: nat): Word {
    Word(version % UNLOCK_LIMIT, false)
  }

  function Released(version: nat): Word {
    Word(version % VERSION_LIMIT, false)
  }

  lemma EncodeDecode(w: Raw)
    ensures Decode(w).version < VERSION_LIMIT && Encode(Decode(w)) == w
  {
  }

  /** `lock()` takes the lock exactly when the word is unlocked and still carries the loaded version, unless the
      exchange fails spuriously; taking it sets the bit and keeps the version, failing leaves the word alone. */
  lemma LockOnDecoded(loaded: Raw, current: Raw, spurious: bool)
    ensures RawLock(loaded, current, spurious).1
       <==> !spurious && Decode(current) == Word(Decode(loaded).version, false)
    ensures Decode(RawLock(loaded, current, spurious).0)
         == if RawLock(loaded, current, spurious).1 then Decode(current).(locked := true) else Decode(current)
  {
  }

  lemma SetVersionOnDecoded(v: Raw)
    ensures Decode(RawSetVersion(v)) == Released(v)
  {
    assert RawSetVersion(v) == 2 * (v % VERSION_LIMIT);
  }

  lemma UnlockOnDecoded(w: Raw)
    ensures Decode(RawUnlock(w)) == Unlocked(Decode(w).version)
  {
    var h := w / 2;
    assert w % 0x1_0000_0000 == 2 * (h % UNLOCK_LIMIT) + w % 2;
  }

  /** Aborting gives the word back as it was before the lock was taken exactly when its
      version is below 2^31. */
  lemma UnlockRestoresIff(w: Raw)
    requires !Decode(w).locked
    ensures RawUnlock(RawDesired(w)) == w <==> Decode(w).version < UNLOCK_LIMIT
  {
    UnlockOnDecoded(RawDesired(w));
    EncodeDecode(w);
    EncodeDecode(RawUnlock(RawDesired(w)));
  }

  /** Versions stored by `setVersion` come back from `getVersion` exactly below 2^63. */
  lemma SetVersionRoundTripIff(v: Raw)
    ensures Decode(RawSetVersion(v)).version == v <==> v < VERSION_LIMIT
  {
    SetVersionOnDecoded(v);
  }
}
