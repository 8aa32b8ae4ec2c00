/** Searching and clearing bits of a block bitmap, a byte at a time where possible. */
module Bitmap {

  /** The first multiple of 8 at or after `i`. */
  function RoundUp(i: nat): nat {
    (i + 7) / 8 * 8
  }

  /** The first clear bit in [s, e), or `e`. */
  function FirstClear(bits: seq<bool>, s: nat, e: nat): (f: nat)
    requires s <= e <= |bits|
    ensures s <= f <= e && (f < e ==> !bits[f]) && forall i :: s <= i < f ==> bits[i]
    decreases e - s
  {
    if s == e || !bits[s] then s else FirstClear(bits, s + 1, e)
  }

  lemma {:induction false} FirstClearIs(bits: seq<bool>, s: nat, e: nat, f: nat)
    requires s <= f <= e <= |bits| && (f < e ==> !bits[f]) && forall i :: s <= i < f ==> bits[i]
    ensures FirstClear(bits, s, e) == f
    decreases f - s
  {
    if s < f {
      FirstClearIs(bits, s + 1, e, f);
    }
  }

  /** What the search answers when there is a clear bit: in an unaligned beginning it reports the start itself. */
  function Answer(bits: seq<bool>, s: nat, e: nat): nat
    requires s <= e <= |bits|
  {
    if FirstClear(bits, s, e) < RoundUp(s) then s else FirstClear(bits, s, e)
  }

  /** The answer is a clear bit unless the first clear bit lies inside an unaligned beginning. */
  lemma AnswerIsClear(bits: seq<bool>, s: nat, e: nat)
    requires s <= e <= |bits| && FirstClear(bits, s, e) < e
    ensures !bits[Answer(bits, s, e)] <==> FirstClear(bits, s, e) == s || FirstClear(bits, s, e) >= RoundUp(s)
  {
    var f := FirstClear(bits, s, e);
    assert s < f ==> bits[s];
  }

  /** Search for a clear bit in [s, e). */
  method FindClear(bits: seq<bool>, s: nat, e: nat) returns (found: bool, id: nat)
    requires s <= e <= |bits|
    ensures found <==> FirstClear(bits, s, e) < e
    ensures found ==> id == Answer(bits, s, e)
  {
    var i, bcnt := s, e - s;
    id := 0;
    while i % 8 != 0
      invariant s <= i <= RoundUp(s) && i + bcnt == e && bcnt >= 0
      invariant forall j :: s <= j < i ==> bits[j]
      decreases bcnt
    {
      if bcnt == 0 {
        FirstClearIs(bits, s, e, e);
        return false, 0;
      }
      if !bits[i] {
        FirstClearIs(bits, s, e, i);
        return true, s;
      }
      i := i + 1;
      bcnt := bcnt - 1;
    }
    Aligned(s, i);
    var sbit := i;
    while bcnt >= 8
      invariant RoundUp(s) <= sbit && sbit + bcnt == e && bcnt >= 0
      invariant forall j :: s <= j < sbit ==> bits[j]
    {
      if !(bits[sbit] && bits[sbit + 1] && bits[sbit + 2] && bits[sbit + 3]
           && bits[sbit + 4] && bits[sbit + 5] && bits[sbit + 6] && bits[sbit + 7]) {
        i := 0;
        while i < 8
          invariant 0 <= i <= 8 && forall j :: s <= j < sbit + i ==> bits[j]
        {
          if !bits[sbit + i] {
            FirstClearIs(bits, s, e, sbit + i);
            return true, sbit + i;
          }
          i := i + 1;
        }
      }
      bcnt := bcnt - 8;
      sbit := sbit + 8;
    }
    i := 0;
    while i < bcnt
      invariant 0 <= i <= bcnt && forall j :: s <= j < sbit + i ==> bits[j]
    {
      if !bits[sbit + i] {
        FirstClearIs(bits, s, e, sbit + i);
        return true, sbit + i;
      }
      i := i + 1;
    }
    FirstClearIs(bits, s, e, e);
    found := false;
  }

  lemma Aligned(s: nat, i: nat)
    requires s <= i <= RoundUp(s) && i % 8 == 0
    ensures i == RoundUp(s)
  {
  }

  /** The bits with [s, s + n) cleared. */
  ghost function Cleared(bits: seq<bool>, s: nat, n: nat): seq<bool> {
    seq(|bits|, i requires 0 <= i < |bits| => bits[i] && !(s <= i < s + n))
  }

  /** Clear `n` bits from bit `s` on: single bits up to a byte border, whole bytes, single bits. */
  method BitsFree(a: array<bool>, s: nat, n: nat)
    requires s + n <= a.Length
    modifies a
    ensures a[..] == Cleared(old(a[..]), s, n)
  {
    var i, bcnt := s, n;
    while i % 8 != 0
      invariant s <= i && i + bcnt == s + n && bcnt >= 0
      invariant forall j :: 0 <= j < a.Length ==> a[j] == (old(a[j]) && !(s <= j < i))
      decreases bcnt
    {
      if bcnt == 0 {
        return;
      }
      a[i] := false;
      bcnt := bcnt - 1;
      i := i + 1;
    }
    var sbit := i;
    while bcnt >= 8
      invariant s <= sbit && sbit + bcnt == s + n && bcnt >= 0
      invariant forall j :: 0 <= j < a.Length ==> a[j] == (old(a[j]) && !(s <= j < sbit))
    {
      a[sbit], a[sbit + 1], a[sbit + 2], a[sbit + 3] := false, false, false, false;
      a[sbit + 4], a[sbit + 5], a[sbit + 6], a[sbit + 7] := false, false, false, false;
      bcnt := bcnt - 8;
      sbit := sbit + 8;
    }
    i := 0;
    while i < bcnt
      invariant 0 <= i <= bcnt
      invariant forall j :: 0 <= j < a.Length ==> a[j] == (old(a[j]) && !(s <= j < sbit + i))
    {
      a[sbit + i] := false;
      i := i + 1;
    }
  }

  // ----- counting clear bits -----

  function Clear(bits: seq<bool>, k: nat): nat
    requires k <= |bits|
  {
    if k == 0 then 0 else Clear(bits, k - 1) + if bits[k - 1] then 0 else 1
  }

  lemma {:induction false} ClearSame(a: seq<bool>, b: seq<bool>, k: nat)
    requires k <= |a| && k <= |b| && forall i :: 0 <= i < k ==> a[i] == b[i]
    ensures Clear(a, k) == Clear(b, k)
  {
    if k > 0 {
      ClearSame(a, b, k - 1);
    }
  }

  lemma {:induction false} ClearPut(bits: seq<bool>, i: nat, v: bool, k: nat)
    requires i < k <= |bits| && bits[i] != v
    ensures Clear(bits[i := v], k) == Clear(bits, k) + if v then -1 else 1
  {
    if i < k - 1 {
      ClearPut(bits, i, v, k - 1);
    } else {
      ClearSame(bits, bits[i := v], k - 1);
    }
  }

  lemma {:induction false} ClearZero(bits: seq<bool>, k: nat)
    requires k <= |bits|
    ensures Clear(bits, k) == 0 <==> forall i :: 0 <= i < k ==> bits[i]
  {
    if k > 0 {
      ClearZero(bits, k - 1);
    }
  }

  /** Clearing `n` set bits below `k` makes `n` more clear bits. */
  lemma {:induction false} ClearMore(bits: seq<bool>, s: nat, n: nat, k: nat)
    requires s + n <= k <= |bits| && forall i :: s <= i < s + n ==> bits[i]
    ensures Clear(Cleared(bits, s, n), k) == Clear(bits, k) + n
    decreases n
  {
    if n == 0 {
      ClearSame(Cleared(bits, s, n), bits, k);
    } else {
      ClearMore(bits, s, n - 1, k);
      var b1 := Cleared(bits, s, n - 1);
      ClearPut(b1, s + n - 1, false, k);
      assert b1[s + n - 1 := false] == Cleared(bits, s, n);
    }
  }
}
