/**
 The prefix allocator's index arithmetic: the 128-bit operations compute the blocks and
 addresses the pool model counts in.
 */
module PrefixIndex {
  import opened Arith
  import opened IpCalc
  import P = PrefixModel

  /** A pool on 128-bit addresses: aligned, and ending within the address space. */
  predicate OnAddresses(c: P.Config, base: Ip) {
    && 1 <= c.page <= 128 && c.base == Value(base) && c.unit == Pow2(128 - c.page)
    && Value(base) % c.unit == 0 && c.count <= WORD && c.base + c.count * c.unit <= WORD * WORD
  }

  /** toIndex gives every address of the pool its block. */
  lemma IndexIsBlock(c: P.Config, base: Ip, ip: Ip)
    requires OnAddresses(c, base) && P.Contains(c, Value(ip))
    ensures P.Sound(c) && Offset(ip, base, c.page) == Ok(P.Block(c, Value(ip)))
  {
    hide Pow2, Offset, Masked;
    OffsetFromAligned(ip, base, c.page);
    P.BlockInPool(c, Value(ip));
  }

  /** toPrefix gives every block its first address, and never runs off the address space. */
  lemma PrefixIsIp(c: P.Config, base: Ip, block: nat)
    requires OnAddresses(c, base) && block < c.count
    ensures AddPrefixes(base, block, c.page).Ok? && Value(AddPrefixes(base, block, c.page).value) == P.Ip(c, block)
  {
    hide Pow2, AddPrefixes, Move;
    Scaled(c.unit, block + 1, c.count);
    assert c.unit * (block + 1) == block * c.unit + c.unit;
    BlockFits(c, base, block);
    MoveIsExact(block, c.page);
    AddPrefixesAdds(base, block, c.page);
  }

  lemma BlockFits(c: P.Config, base: Ip, block: nat)
    requires OnAddresses(c, base) && block < c.count
    ensures block < Pow2(c.page)
  {
    hide Pow2;
    Pow2Adds(c.page, 128 - c.page);
    Pow2Adds(64, 64);
    Pow2Word();
    Scaled(c.unit, block + 1, c.count);
    Between(c.unit, block, Pow2(c.page));
  }
}
