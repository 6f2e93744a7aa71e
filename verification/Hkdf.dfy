/** The block loop of HKDF-Expand (quic/crypto.c:29-98, section 2.3 of RFC 5869). The keyed hash is
    any function with a fixed output length. */
module Hkdf {
  import opened Common
  import opened Bytes

  type Mac = Str -> Str

  ghost predicate FixedLength(mac: Mac, n: nat) { forall x :: |mac(x)| == n }

  const BLOCKS_MAX := 255

  /** T(i): the hash of T(i - 1), the info and the counter; T(0) is empty. */
  function Block(mac: Mac, info: Str, i: nat): Str
    requires i <= BLOCKS_MAX
  {
    if i == 0 then [] else mac(Block(mac, info, i - 1) + info + [i])
  }

  /** T(1) up to T(i) in a row. */
  function Blocks(mac: Mac, info: Str, i: nat): Str
    requires i <= BLOCKS_MAX
  {
    if i == 0 then [] else Blocks(mac, info, i - 1) + Block(mac, info, i)
  }

  function BlockCount(len: nat, size: nat): nat
    requires size > 0
  { len / size + (if len % size != 0 then 1 else 0) }

  lemma {:induction false} BlocksLength(mac: Mac, info: Str, size: nat, i: nat)
    requires FixedLength(mac, size) && i <= BLOCKS_MAX
    ensures |Blocks(mac, info, i)| == i * size
  {
    if i > 0 { BlocksLength(mac, info, size, i - 1); }
  }

  lemma {:induction false} BlockAt(mac: Mac, info: Str, size: nat, n: nat, i: nat, from: nat)
    requires FixedLength(mac, size) && 1 <= i <= n <= BLOCKS_MAX && from == (i - 1) * size
    ensures from + size <= |Blocks(mac, info, n)|
    ensures Blocks(mac, info, n)[from..from + size] == Block(mac, info, i)
    decreases n
  {
    BlocksLength(mac, info, size, n - 1);
    var front, last := Blocks(mac, info, n - 1), Block(mac, info, n);
    if i < n {
      BlockAt(mac, info, size, n - 1, i, from);
      InFront(front, last, from, size);
    } else {
      Behind(front, last);
    }
  }

  lemma InFront(a: Str, b: Str, from: nat, size: nat)
    requires from + size <= |a|
    ensures (a + b)[from..from + size] == a[from..from + size]
  {}

  lemma Behind(a: Str, b: Str)
    ensures (a + b)[|a|..|a| + |b|] == b
  {}

  lemma OneLess(k: nat, size: nat)
    requires k > 0
    ensures (k - 1) * size == k * size - size && size <= k * size
  {}

  /** In the output each block is the hash of the one in front of it, the info and its number. */
  lemma OutputChain(mac: Mac, info: Str, size: nat, n: nat, i: nat, from: nat)
    requires FixedLength(mac, size) && 1 <= i <= n <= BLOCKS_MAX && from == (i - 1) * size
    ensures var okm := Blocks(mac, info, n);
            && from + size <= |okm| && (i > 1 ==> size <= from)
            && okm[from..from + size] == mac((if i == 1 then [] else okm[from - size..from]) + info + [i])
  {
    BlockAt(mac, info, size, n, i, from);
    if i > 1 {
      OneLess(i - 1, size);
      BlockAt(mac, info, size, n, i - 1, from - size);
    }
  }

  /** The counter is one byte: its value after `turns` turns. */
  function Counter(turns: nat): nat { (1 + turns) % 256 }

  /** The loop over `n` blocks ends exactly when `n` is not 255: a counter of one byte never exceeds
      that, although the guard before the loop lets it pass. */
  lemma EndsIff(n: nat)
    requires n <= BLOCKS_MAX
    ensures (exists t: nat :: Counter(t) > n) <==> n < BLOCKS_MAX
  {
    if n < BLOCKS_MAX { assert Counter(n) > n; }
  }

  lemma CountTimes(len: nat, size: nat, n: nat)
    requires size > 0 && n == BlockCount(len, size)
    ensures len <= n * size && (n > 0 ==> (n - 1) * size < len)
  {
    var q, m := len / size, len % size;
    assert len == q * size + m;
    if m == 0 && q > 0 { assert (q - 1) * size == q * size - size; }
  }

  /** HkdfExpand; `ends` is false when its loop does not end. */
  method Expand(mac: Mac, size: nat, info: Str, len: nat) returns (okm: Option<Str>, ends: bool)
    requires size > 0 && FixedLength(mac, size)
    ensures ends <==> BlockCount(len, size) != BLOCKS_MAX
    ensures ends ==> (okm.None? <==> BlockCount(len, size) > BLOCKS_MAX)
    ensures okm.Some? ==> ends && |okm.value| == len && |Blocks(mac, info, BlockCount(len, size))| >= len
                          && okm.value == Blocks(mac, info, BlockCount(len, size))[..len]
  {
    var n := BlockCount(len, size);
    CountTimes(len, size, n);
    ends := n != BLOCKS_MAX;
    if n >= BLOCKS_MAX { return None, ends; }
    var i, prev, out := 1, [], [];
    ghost var done := 0;
    while i <= n
      invariant 1 <= i <= n + 1 && done == i - 1
      invariant prev == Block(mac, info, done)
      invariant |Blocks(mac, info, done)| == done * size
      invariant out == if done == n then Blocks(mac, info, n)[..len] else Blocks(mac, info, done)
    {
      BlocksLength(mac, info, size, i);
      prev := mac(prev + info + [i]);
      var copy := if |out| + size > len then len - |out| else size;
      TurnFits(len, size, n, i);
      out := out + prev[..copy];
      done := i;
      assert Counter(i) == i + 1;
      i := Counter(i);
    }
    BlocksLength(mac, info, size, n);
    okm := Some(out);
  }

  lemma TurnFits(len: nat, size: nat, n: nat, i: nat)
    requires 1 <= i <= n && len <= n * size && (n - 1) * size < len
    ensures (i - 1) * size + size == i * size
    ensures i < n ==> i * size <= (n - 1) * size
  {
    if i < n { TimesGrows(i, n - 1, size); }
  }

  lemma TimesGrows(a: nat, b: nat, size: nat)
    requires a <= b
    ensures a * size <= b * size
  {}

  /** A longer output begins with the shorter one. */
  lemma {:induction false} Extends(mac: Mac, info: Str, i: nat, j: nat)
    requires i <= j <= BLOCKS_MAX
    ensures Blocks(mac, info, i) <= Blocks(mac, info, j)
    decreases j
  {
    if i < j { Extends(mac, info, i, j - 1); }
  }
}
