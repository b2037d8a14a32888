/** Positions in blocks of equal size. */
module Blocks {
  lemma BlockOffset(d: nat, h: nat, c: nat)
    requires c < d
    ensures (h * d + c) / d == h && (h * d + c) % d == c
  {
    var x := h * d + c;
    var q, r := x / d, x % d;
    assert x == q * d + r;
    NoMultipleBetween(h - q, d, r - c);
  }

  lemma NoMultipleBetween(k: int, d: int, x: int)
    requires k * d == x && 0 - d < x < d
    ensures k == 0
  {
    if k >= 1 { Monotone(1, k, d); }
    if k <= -1 { Monotone(k, -1, d); }
  }

  lemma Monotone(a: int, b: int, d: int)
    requires a <= b && d >= 0
    ensures a * d <= b * d
  {
  }

  /** The block that a position lies in starts here. */
  function BlockStart(r: nat, block: nat): (s: nat)
    requires block > 0
    ensures s <= r < s + block
  {
    r - r % block
  }

  lemma StartAligned(r: nat, block: nat)
    requires block > 0
    ensures BlockStart(r, block) % block == 0
  {
    BlockOffset(block, r / block, 0);
    assert BlockStart(r, block) == (r / block) * block;
  }

  lemma InBlock(s: nat, block: nat, i: nat)
    requires i < block && s % block == 0
    ensures BlockStart(s + i, block) == s
  {
    BlockOffset(block, s / block, i);
  }

  /** Two different block starts are at least a block apart. */
  lemma StartsApart(s: nat, m: nat, block: nat)
    requires block > 0 && s % block == 0 && m % block == 0 && s < m
    ensures s + block <= m
  {
    InBlock(m, block, 0);
    if m < s + block { InBlock(s, block, m - s); }
  }

  lemma StartBefore(s: nat, block: nat)
    requires block > 0 && s % block == 0 && s > 0
    ensures s >= block && (s - block) % block == 0
  {
    StartsApart(0, s, block);
    assert s - block == (s / block - 1) * block;
    BlockOffset(block, s / block - 1, 0);
  }
}
