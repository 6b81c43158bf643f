/** The key schedule of FIPS 197, section 5.2, as the recurrence over four-byte words. */
module KeySchedule {
  import opened Gf256
  import opened Locks

  type Word = w: seq<Byte> | |w| == 4 witness [0, 0, 0, 0]

  /** The round-constant table of the library; entry 0 is never used. */
  const RCON: seq<Byte> := [0x8d, 0x01, 0x02, 0x04, 0x08, 0x10, 0x20, 0x40, 0x80, 0x1b, 0x36]

  /** Key sizes of four, six and eight words: AES-128, AES-192 and AES-256. */
  predicate KeyWords(nk: nat) {
    nk == 4 || nk == 6 || nk == 8
  }

  function RoundCount(nk: nat): nat {
    nk + 6
  }

  function ScheduleWords(nk: nat): nat {
    4 * (RoundCount(nk) + 1)
  }

  function RotWord(w: Word): Word {
    [w[1], w[2], w[3], w[0]]
  }

  function SubWord(sub: Byte -> Byte, w: Word): Word {
    [sub(w[0]), sub(w[1]), sub(w[2]), sub(w[3])]
  }

  function XorWords(a: Word, b: Word): Word {
    [Add(a[0], b[0]), Add(a[1], b[1]), Add(a[2], b[2]), Add(a[3], b[3])]
  }

  /** x to the power n in the field. */
  function PowerOfX(n: nat): Byte {
    if n == 0 then 1 else Double(PowerOfX(n - 1))
  }

  /** The transformation of the previous word on the way to word i. */
  function Transformed(sub: Byte -> Byte, w: Word, nk: nat, i: nat): Word
    requires KeyWords(nk) && nk <= i
  {
    if i % nk == 0 then XorWords(SubWord(sub, RotWord(w)), [PowerOfX(i / nk - 1), 0, 0, 0])
    else if nk == 8 && i % nk == 4 then SubWord(sub, w)
    else w
  }

  /** Word i of the schedule. */
  function ScheduleWord(sub: Byte -> Byte, key: seq<Byte>, nk: nat, i: nat): Word
    requires KeyWords(nk) && |key| == 4 * nk
    decreases i
  {
    if i < nk then key[4 * i..4 * i + 4]
    else XorWords(ScheduleWord(sub, key, nk, i - nk), Transformed(sub, ScheduleWord(sub, key, nk, i - 1), nk, i))
  }

  /** The bytes of the first n words. */
  function Schedule(sub: Byte -> Byte, key: seq<Byte>, nk: nat, n: nat): (s: seq<Byte>)
    requires KeyWords(nk) && |key| == 4 * nk
    ensures |s| == 4 * n
  {
    if n == 0 then [] else Schedule(sub, key, nk, n - 1) + ScheduleWord(sub, key, nk, n - 1)
  }

  function WordAt(s: seq<Byte>, i: nat): Word
    requires 4 * i + 4 <= |s|
  {
    s[4 * i..4 * i + 4]
  }

  /** The bytes of the first n of any words. */
  function Concat(f: nat -> Word, n: nat): (s: seq<Byte>)
    ensures |s| == 4 * n
  {
    if n == 0 then [] else Concat(f, n - 1) + f(n - 1)
  }

  lemma {:induction false} ConcatAt(f: nat -> Word, n: nat, i: nat)
    requires i < n
    ensures WordAt(Concat(f, n), i) == f(i)
  {
    if i < n - 1 {
      ConcatAt(f, n - 1, i);
      assert WordAt(Concat(f, n), i) == WordAt(Concat(f, n - 1), i);
    }
  }

  /** f gives the words of a schedule: a fact that Unlock releases where it is needed. */
  ghost predicate Gives(f: nat -> Word, sub: Byte -> Byte, key: seq<Byte>, nk: nat)
    requires KeyWords(nk) && |key| == 4 * nk
  {
    forall k: int :: Unlock(k) ==> forall i: nat :: f(i) == ScheduleWord(sub, key, nk, i)
  }

  lemma {:induction false} GivesWord(f: nat -> Word, sub: Byte -> Byte, key: seq<Byte>, nk: nat, i: nat)
    requires KeyWords(nk) && |key| == 4 * nk && Gives(f, sub, key, nk)
    ensures f(i) == ScheduleWord(sub, key, nk, i)
  {
    assert Unlock(0);
  }

  lemma {:induction false} ScheduleIsConcat(f: nat -> Word, sub: Byte -> Byte, key: seq<Byte>, nk: nat, n: nat)
    requires KeyWords(nk) && |key| == 4 * nk && Gives(f, sub, key, nk)
    ensures Schedule(sub, key, nk, n) == Concat(f, n)
  {
    if n > 0 {
      ScheduleIsConcat(f, sub, key, nk, n - 1);
      GivesWord(f, sub, key, nk, n - 1);
    }
  }

  lemma {:induction false} ScheduleAt(sub: Byte -> Byte, key: seq<Byte>, nk: nat, n: nat, i: nat)
    requires KeyWords(nk) && |key| == 4 * nk && i < n
    ensures WordAt(Schedule(sub, key, nk, n), i) == ScheduleWord(sub, key, nk, i)
  {
    var f: nat -> Word := j => ScheduleWord(sub, key, nk, j);
    assert Gives(f, sub, key, nk);
    ScheduleIsConcat(f, sub, key, nk, n);
    ConcatAt(f, n, i);
  }

  /** A schedule of n words starts with those of the key. */
  lemma {:induction false} ScheduleStartsWithKey(sub: Byte -> Byte, key: seq<Byte>, nk: nat, n: nat, i: nat)
    requires KeyWords(nk) && |key| == 4 * nk && i < n && i < nk
    ensures WordAt(Schedule(sub, key, nk, n), i) == key[4 * i..4 * i + 4]
  {
    ScheduleAt(sub, key, nk, n, i);
  }

  lemma {:induction false} WordsRecur(sub: Byte -> Byte, key: seq<Byte>, nk: nat, n: nat, i: nat, s: seq<Byte>)
    requires KeyWords(nk) && |key| == 4 * nk && nk <= i < n
    requires s == Schedule(sub, key, nk, n)
    ensures WordAt(s, i) == XorWords(WordAt(s, i - nk), Transformed(sub, WordAt(s, i - 1), nk, i))
  {
    ScheduleAt(sub, key, nk, n, i);
    ScheduleAt(sub, key, nk, n, i - nk);
    ScheduleAt(sub, key, nk, n, i - 1);
    WordFrom(sub, key, nk, i, WordAt(s, i - nk), WordAt(s, i - 1), WordAt(s, i));
  }

  lemma {:induction false} WordFrom(sub: Byte -> Byte, key: seq<Byte>, nk: nat, i: nat, before: Word, last: Word,
      w: Word)
    requires KeyWords(nk) && |key| == 4 * nk && nk <= i && w == ScheduleWord(sub, key, nk, i)
    requires before == ScheduleWord(sub, key, nk, i - nk) && last == ScheduleWord(sub, key, nk, i - 1)
    ensures w == XorWords(before, Transformed(sub, last, nk, i))
  {
  }

  // ---------------------------------------------------------------- the standard, byte by byte

  /** What byte j of word i adds to the byte nk words before it, last being the word before: at multiples of nk
      the substituted byte after j, and the round constant at j == 0; halfway through eight words the substituted
      byte; else the byte. */
  function Addend(sub: Byte -> Byte, last: Word, nk: nat, i: nat, j: nat): Byte
    requires KeyWords(nk) && nk <= i && j < 4
  {
    if i % nk == 0 then
      (if j == 3 then sub(last[0]) else if j == 0 then Add(sub(last[1]), PowerOfX(i / nk - 1)) else sub(last[j + 1]))
    else if nk == 8 && i % 8 == 4 then sub(last[j])
    else last[j]
  }

  predicate ExpandedByte(sub: Byte -> Byte, s: seq<Byte>, nk: nat, i: nat, j: nat)
    requires KeyWords(nk) && nk <= i && 4 * i + 4 <= |s| && j < 4
  {
    s[4 * i + j] == Add(s[4 * (i - nk) + j], Addend(sub, s[4 * (i - 1)..4 * (i - 1) + 4], nk, i, j))
  }

  /** s starts with the bytes of the key, and each later byte is what section 5.2 of FIPS 197 makes it. */
  ghost predicate Expanded(sub: Byte -> Byte, key: seq<Byte>, nk: nat, s: seq<Byte>)
    requires KeyWords(nk) && |key| == 4 * nk <= |s|
  {
    && (forall k | 0 <= k < 4 * nk :: s[k] == key[k])
    && (forall i: nat, j: nat | nk <= i && 4 * i + 4 <= |s| && j < 4 :: ExpandedByte(sub, s, nk, i, j))
  }

  lemma {:induction false} XorWordsAt(a: Word, b: Word, j: nat)
    requires j < 4
    ensures XorWords(a, b)[j] == Add(a[j], b[j])
  {
  }

  lemma {:induction false} RotatedBytes(sub: Byte -> Byte, last: Word, p: Byte)
    ensures XorWords(SubWord(sub, RotWord(last)), [p, 0, 0, 0]) ==
            [Add(sub(last[1]), p), sub(last[2]), sub(last[3]), sub(last[0])]
  {
    AddZero(sub(last[2]));
    AddZero(sub(last[3]));
    AddZero(sub(last[0]));
  }

  lemma {:induction false} TransformedByte(sub: Byte -> Byte, last: Word, nk: nat, i: nat, j: nat)
    requires KeyWords(nk) && nk <= i && j < 4
    ensures Transformed(sub, last, nk, i)[j] == Addend(sub, last, nk, i, j)
  {
    if i % nk == 0 {
      RotatedBytes(sub, last, PowerOfX(i / nk - 1));
    }
  }

  lemma {:induction false} ExpandedAt(sub: Byte -> Byte, key: seq<Byte>, nk: nat, n: nat, s: seq<Byte>, i: nat, j: nat)
    requires KeyWords(nk) && |key| == 4 * nk && nk <= i < n && s == Schedule(sub, key, nk, n) && j < 4
    ensures ExpandedByte(sub, s, nk, i, j)
  {
    WordsRecur(sub, key, nk, n, i, s);
    TransformedByte(sub, WordAt(s, i - 1), nk, i, j);
    XorWordsAt(WordAt(s, i - nk), Transformed(sub, WordAt(s, i - 1), nk, i), j);
    assert WordAt(s, i)[j] == s[4 * i + j] && WordAt(s, i - nk)[j] == s[4 * (i - nk) + j];
  }

  lemma {:induction false} KeyByteAt(sub: Byte -> Byte, key: seq<Byte>, nk: nat, n: nat, s: seq<Byte>, k: nat)
    requires KeyWords(nk) && |key| == 4 * nk && nk <= n && s == Schedule(sub, key, nk, n) && k < 4 * nk
    ensures s[k] == key[k]
  {
    ScheduleStartsWithKey(sub, key, nk, n, k / 4);
    assert WordAt(s, k / 4)[k % 4] == s[k] && key[4 * (k / 4)..4 * (k / 4) + 4][k % 4] == key[k];
  }

  lemma {:induction false} ScheduleIsExpanded(sub: Byte -> Byte, key: seq<Byte>, nk: nat, n: nat, s: seq<Byte>)
    requires KeyWords(nk) && |key| == 4 * nk && nk <= n && s == Schedule(sub, key, nk, n)
    ensures Expanded(sub, key, nk, s)
  {
    forall k | 0 <= k < 4 * nk ensures s[k] == key[k] {
      KeyByteAt(sub, key, nk, n, s, k);
    }
    forall i: nat, j: nat | nk <= i && 4 * i + 4 <= |s| && j < 4 ensures ExpandedByte(sub, s, nk, i, j) {
      ExpandedAt(sub, key, nk, n, s, i, j);
    }
  }

  lemma {:induction false} SameByte(sub: Byte -> Byte, s: seq<Byte>, t: seq<Byte>, nk: nat, i: nat, j: nat)
    requires KeyWords(nk) && nk <= i && 4 * i + 4 <= |s| == |t| && j < 4
    requires ExpandedByte(sub, s, nk, i, j) && ExpandedByte(sub, t, nk, i, j)
    requires WordAt(s, i - nk) == WordAt(t, i - nk) && WordAt(s, i - 1) == WordAt(t, i - 1)
    ensures WordAt(s, i)[j] == WordAt(t, i)[j]
  {
    assert s[4 * (i - nk) + j] == WordAt(s, i - nk)[j] && t[4 * (i - nk) + j] == WordAt(t, i - nk)[j];
  }

  lemma {:induction false} OneExpansion(sub: Byte -> Byte, key: seq<Byte>, nk: nat, s: seq<Byte>, t: seq<Byte>, i: nat)
    requires KeyWords(nk) && |key| == 4 * nk <= |s| == |t| && 4 * i + 4 <= |s|
    requires Expanded(sub, key, nk, s) && Expanded(sub, key, nk, t)
    ensures WordAt(s, i) == WordAt(t, i)
    decreases i
  {
    if i >= nk {
      OneExpansion(sub, key, nk, s, t, i - nk);
      OneExpansion(sub, key, nk, s, t, i - 1);
      forall j | 0 <= j < 4 ensures WordAt(s, i)[j] == WordAt(t, i)[j] {
        SameByte(sub, s, t, nk, i, j);
      }
    } else {
      assert forall k | 4 * i <= k < 4 * i + 4 :: s[k] == key[k] == t[k];
    }
  }

  /** For every key size, substitution and length: the schedule is what the standard asks for, and nothing else
      is. */
  lemma {:induction false} ScheduleIsStandard(sub: Byte -> Byte, key: seq<Byte>, nk: nat, n: nat, s: seq<Byte>)
    requires KeyWords(nk) && |key| == 4 * nk && nk <= n && |s| == 4 * n
    ensures s == Schedule(sub, key, nk, n) <==> Expanded(sub, key, nk, s)
  {
    var t := Schedule(sub, key, nk, n);
    ScheduleIsExpanded(sub, key, nk, n, t);
    if Expanded(sub, key, nk, s) {
      forall k | 0 <= k < |s| ensures s[k] == t[k] {
        OneExpansion(sub, key, nk, s, t, k / 4);
        assert s[k] == WordAt(s, k / 4)[k % 4] && t[k] == WordAt(t, k / 4)[k % 4];
      }
    }
  }

  /** Every use of the table is in range and reads a power of x. */
  lemma {:induction false} RconUsed(nk: nat, i: nat)
    requires KeyWords(nk) && nk <= i < ScheduleWords(nk)
    ensures 1 <= i / nk <= 10
    ensures RCON[i / nk] == PowerOfX(i / nk - 1)
  {
    RconIndex(nk, i);
    RconEntry(i / nk);
  }

  lemma {:induction false} RconIndex(nk: nat, i: nat)
    requires KeyWords(nk) && nk <= i < ScheduleWords(nk)
    ensures 1 <= i / nk <= 10
  {
  }

  lemma {:induction false} RconEntry(j: nat)
    requires 1 <= j <= 10
    ensures RCON[j] == PowerOfX(j - 1)
  {
    if j > 1 {
      RconEntry(j - 1);
      RconDoubles();
    }
  }

  lemma {:induction false} RconDoubles()
    ensures forall j | 2 <= j <= 10 :: RCON[j] == Double(RCON[j - 1])
  {
  }
}
