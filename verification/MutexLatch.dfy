/** The latch word of the Cotamer mutex (cotamer/cotamer.hh:466-472): as the record of what its
    bits say, and as the 32-bit number the code tests and updates. */
module MutexLatch {
  import opened CircularInt

  datatype Next = Nobody | Exclusive | Shared

  /** Shared holders, exclusive lock held, what the head waiter wants, latch taken. */
  datatype Word = Word(shared: nat, excl: bool, next: Next, latch: bool)

  /** The most shared holders the word can count: 28 bits. */
  const MAX_SHARED: nat := 0x0FFF_FFFF

  predicate Allow(shared: bool, w: Word) {
    !w.excl && (shared || w.shared == 0)
  }

  /** Adding and subtracting `mf_lock_shared`; the count wraps around. */
  function MoreShared(w: Word): Word {
    w.(shared := if w.shared == MAX_SHARED then 0 else w.shared + 1)
  }

  function LessShared(w: Word): Word {
    w.(shared := if w.shared == 0 then MAX_SHARED else w.shared - 1)
  }

  function Taken(w: Word, shared: bool): Word {
    if shared then MoreShared(w) else w.(excl := true)
  }

  function Dropped(w: Word, shared: bool): Word {
    if shared then LessShared(w) else w.(excl := false)
  }

  // ----- the number -----

  const MF_LATCH: nat := 1
  const MF_NEXT_EXCL: nat := 2
  const MF_NEXT_SHARED: nat := 4
  const MF_LOCK_EXCL: nat := 8
  const MF_LOCK_SHARED: nat := 16

  function NextBit(next: Next): nat {
    match next
    case Nobody => 0
    case Exclusive => MF_NEXT_EXCL
    case Shared => MF_NEXT_SHARED
  }

  function Encode(w: Word): nat {
    MF_LOCK_SHARED * w.shared + (if w.excl then MF_LOCK_EXCL else 0) + NextBit(w.next) + if w.latch then MF_LATCH else 0
  }

  /** The single bit `m` of `l`, `m` a power of two. */
  function Bit(l: nat, m: nat): nat
    requires m > 0
  {
    l / m % 2 * m
  }

  function LockUnit(shared: bool): nat {
    if shared then MF_LOCK_SHARED else MF_LOCK_EXCL
  }

  /** `mutex::allow` on the number. */
  predicate AllowNumber(shared: bool, l: nat) {
    if shared then Bit(l, MF_LOCK_EXCL) == 0 else l < MF_LOCK_EXCL
  }

  /** Every test the code makes on the number reads the field it is meant to read. */
  lemma TestsReadFields(w: Word)
    requires w.shared <= MAX_SHARED
    ensures var l := Encode(w);
            && l < WORD
            && (Bit(l, MF_LATCH) != 0 <==> w.latch)
            && (Bit(l, MF_NEXT_EXCL) != 0 <==> w.next == Exclusive)
            && (Bit(l, MF_NEXT_SHARED) != 0 <==> w.next == Shared)
            && (Bit(l, MF_LOCK_EXCL) != 0 <==> w.excl)
            && (l >= 2 * MF_LOCK_SHARED <==> w.shared >= 2)
            && (l == 0 <==> w == Word(0, false, Nobody, false))
  {
    var l := Encode(w);
    var e := if w.excl then 1 else 0;
    var latch := if w.latch then 1 else 0;
    assert l == 2 * (8 * w.shared + 4 * e + NextBit(w.next) / 2) + latch;
    assert l / 2 == 2 * (4 * w.shared + 2 * e + NextBit(w.next) / 4) + NextBit(w.next) / 2 % 2;
    assert l / 4 == 2 * (2 * w.shared + e) + NextBit(w.next) / 4;
    assert l / 8 == 2 * w.shared + e;
  }

  lemma AllowReadsFields(w: Word, shared: bool)
    requires w.shared <= MAX_SHARED
    ensures AllowNumber(shared, Encode(w)) <==> Allow(shared, w)
    ensures AllowNumber(shared, Encode(w)) <==> !w.excl && (shared || w.shared == 0)
  {
    TestsReadFields(w);
  }

  /** Every addition and subtraction on the 32-bit number changes the field it is meant to change. */
  lemma ArithmeticMovesFields(w: Word, shared: bool)
    requires w.shared <= MAX_SHARED
    ensures shared || !w.excl ==> Wrap(Encode(w) + LockUnit(shared)) == Encode(Taken(w, shared))
    ensures shared || w.excl ==> Wrap(Encode(w) - LockUnit(shared)) == Encode(Dropped(w, shared))
  {
    TestsReadFields(w);
    var l := Encode(w);
    if shared && w.shared == MAX_SHARED {
      WrapUnique(l + MF_LOCK_SHARED, Encode(MoreShared(w)), 1);
    } else if shared || !w.excl {
      WrapUnique(l + LockUnit(shared), l + LockUnit(shared), 0);
    }
    if shared && w.shared == 0 {
      WrapUnique(l - MF_LOCK_SHARED, Encode(LessShared(w)), -1);
    } else if shared || w.excl {
      WrapUnique(l - LockUnit(shared), l - LockUnit(shared), 0);
    }
  }
}
