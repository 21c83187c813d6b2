/**
 IPv4 prefix blocks as in section 3.1 of RFC 4632, with the operations of Python's `ipaddress` that the
 subnet allocator uses, and the allocator's choice of a free block
 (scripts/e2e_question_driver.py, inner function `choose`).
 */
module Cidr {
  import opened Wrappers

  datatype Block = Block(base: nat, prefix: nat)

  function Pow2(n: nat): (r: nat)
    ensures r >= 1
  {
    if n == 0 then 1 else 2 * Pow2(n - 1)
  }

  function Size(b: Block): (r: nat)
    requires b.prefix <= 32
    ensures r >= 1
  {
    Pow2(32 - b.prefix)
  }

  predicate WellFormed(b: Block) {
    b.prefix <= 32 && b.base % Size(b) == 0
  }

  function Last(b: Block): nat
    requires WellFormed(b)
  {
    b.base + Size(b) - 1
  }

  /** Membership as the library computes it: mask the address and compare with the network address. */
  predicate HasAddress(b: Block, address: nat)
    requires WellFormed(b)
  {
    address - address % Size(b) == b.base
  }

  /** The library's overlap test looks only at the four end points. */
  predicate Overlaps(a: Block, b: Block)
    requires WellFormed(a) && WellFormed(b)
  {
    HasAddress(b, a.base) || HasAddress(b, Last(a)) || HasAddress(a, b.base) || HasAddress(a, Last(b))
  }

  predicate SubnetOf(a: Block, b: Block)
    requires WellFormed(a) && WellFormed(b)
  {
    b.base <= a.base && Last(a) <= Last(b)
  }

  // ---------- arithmetic of aligned blocks ----------

  lemma {:induction false} Pow2Sum(m: nat, n: nat)
    ensures Pow2(m + n) == Pow2(m) * Pow2(n)
  {
    if m > 0 {
      Pow2Sum(m - 1, n);
      assert Pow2(m + n) == 2 * Pow2(m - 1 + n);
    }
  }

  lemma MultiplesUp(p: int, q: int, unit: int)
    requires unit > 0 && p < q
    ensures p * unit + unit <= q * unit
  {
    assert (q - p - 1) * unit >= 0;
    assert (q - p - 1) * unit == q * unit - p * unit - unit;
  }

  /** Between two multiples of `unit` there is room for a whole unit. */
  lemma MultiplesApart(p: int, q: int, unit: int)
    requires unit > 0 && p * unit < q * unit
    ensures p * unit + unit <= q * unit
  {
    if p < q {
      MultiplesUp(p, q, unit);
    } else if q < p {
      MultiplesUp(q, p, unit);
    }
  }

  lemma ModOfMultiple(q: int, r: int, unit: int)
    requires unit > 0 && 0 <= r < unit
    ensures (q * unit + r) % unit == r
  {
    var x := q * unit + r;
    var q', r' := x / unit, x % unit;
    assert x == q' * unit + r';
    if q' < q { MultiplesUp(q', q, unit); }
    if q < q' { MultiplesUp(q, q', unit); }
  }

  lemma Quotient(x: nat, unit: nat) returns (q: nat)
    requires unit > 0 && x % unit == 0
    ensures x == q * unit
  {
    q := x / unit;
  }

  lemma MemberIsInRange(b: Block, address: nat)
    requires WellFormed(b)
    ensures HasAddress(b, address) <==> b.base <= address <= Last(b)
  {
    var unit, q := Size(b), b.base / Size(b);
    assert b.base == q * unit;
    if b.base <= address <= Last(b) {
      ModOfMultiple(q, address - b.base, unit);
    }
  }

  lemma SizeRatio(a: Block, b: Block) returns (k: nat)
    requires a.prefix <= b.prefix <= 32
    ensures k >= 1 && Size(a) == k * Size(b) && Size(a) >= Size(b)
  {
    k := Pow2(b.prefix - a.prefix);
    Pow2Sum(b.prefix - a.prefix, 32 - b.prefix);
    if k > 1 { MultiplesUp(1, k, Size(b)); }
  }

  lemma MulAssociates(a: int, b: int, c: int)
    ensures a * (b * c) == (a * b) * c
  {
  }

  /** A block whose prefix is at least as long counts the other one's start and size in its own units. */
  lemma AlignedIn(a: Block, b: Block) returns (p: nat, k: nat)
    requires WellFormed(a) && b.prefix <= 32 && a.prefix <= b.prefix
    ensures a.base == p * Size(b) && k >= 1 && Size(a) == k * Size(b)
    ensures Size(a) >= Size(b)
  {
    k := SizeRatio(a, b);
    var q := Quotient(a.base, Size(a));
    MulAssociates(q, k, Size(b));
    p := q * k;
  }

  lemma SharedAddressNests(a: Block, b: Block, address: nat)
    requires WellFormed(a) && WellFormed(b) && a.prefix <= b.prefix
    requires a.base <= address <= Last(a) && b.base <= address <= Last(b)
    ensures SubnetOf(b, a)
  {
    var unit := Size(b);
    var p, n := AlignedIn(a, b);
    var q := Quotient(b.base, unit);
    SharedUnits(p, n, q, unit, address);
  }

  lemma SharedUnits(p: nat, n: nat, q: nat, unit: nat, address: nat)
    requires unit > 0
    requires p * unit <= address < p * unit + n * unit && q * unit <= address < q * unit + unit
    ensures p * unit <= q * unit && q * unit + unit <= p * unit + n * unit
  {
    if q * unit < p * unit { MultiplesApart(q, p, unit); }
    assert (p + n) * unit == p * unit + n * unit;
    MultiplesApart(q, p + n, unit);
  }

  /**
   Prefix blocks cannot straddle each other: the end-point test holds exactly when some address is shared,
   and exactly when one block contains the other.
   */
  lemma OverlapIsNesting(a: Block, b: Block)
    requires WellFormed(a) && WellFormed(b)
    ensures Overlaps(a, b) <==> SubnetOf(a, b) || SubnetOf(b, a)
    ensures Overlaps(a, b) <==> exists x: nat :: HasAddress(a, x) && HasAddress(b, x)
    ensures Overlaps(a, b) == Overlaps(b, a)
  {
    forall x: nat ensures HasAddress(a, x) <==> a.base <= x <= Last(a) { MemberIsInRange(a, x); }
    forall x: nat ensures HasAddress(b, x) <==> b.base <= x <= Last(b) { MemberIsInRange(b, x); }
    if x: nat :| HasAddress(a, x) && HasAddress(b, x) {
      if a.prefix <= b.prefix { SharedAddressNests(a, b, x); } else { SharedAddressNests(b, a, x); }
    }
    assert HasAddress(a, a.base) && HasAddress(b, b.base) && HasAddress(a, Last(a)) && HasAddress(b, Last(b));
  }

  // ---------- the allocator's choice ----------

  datatype ChooseError = PrefixTooLong

  function Min(a: nat, b: nat): nat { if a < b then a else b }

  /** The first 256 blocks of length 24; only a network of length at most 24, or a single address, has any. */
  function Slash24s(network: Block): (r: Result<seq<Block>, ChooseError>)
    requires WellFormed(network)
  {
    if network.prefix == 32 then Ok([network])
    else if network.prefix > 24 then Err(PrefixTooLong)
    else Ok(seq(Min(256, Pow2(24 - network.prefix)), i requires 0 <= i => Block(network.base + 256 * i, 24)))
  }

  predicate Free(b: Block, taken: seq<Block>)
    requires WellFormed(b) && forall t :: t in taken ==> WellFormed(t)
  {
    forall t :: t in taken ==> !Overlaps(b, t)
  }

  function FirstFree(candidates: seq<Block>, taken: seq<Block>): (r: Option<Block>)
    requires forall b :: b in candidates ==> WellFormed(b)
    requires forall t :: t in taken ==> WellFormed(t)
    ensures r.Some? ==> r.value in candidates && Free(r.value, taken)
  {
    if candidates == [] then None
    else if Free(candidates[0], taken) then Some(candidates[0])
    else FirstFree(candidates[1..], taken)
  }

  /** Every candidate before the chosen one is taken; all of them are when none is chosen. */
  lemma {:induction false} FirstFreeIsFirst(candidates: seq<Block>, taken: seq<Block>) returns (i: nat)
    requires forall b :: b in candidates ==> WellFormed(b)
    requires forall t :: t in taken ==> WellFormed(t)
    ensures i <= |candidates| && forall j :: 0 <= j < i ==> !Free(candidates[j], taken)
    ensures FirstFree(candidates, taken) == if i < |candidates| then Some(candidates[i]) else None
  {
    i := 0;
    if candidates != [] && !Free(candidates[0], taken) {
      var k := FirstFreeIsFirst(candidates[1..], taken);
      i := k + 1;
      forall j | 0 <= j < i ensures !Free(candidates[j], taken) {
        if j > 0 { assert candidates[j] == candidates[1..][j - 1]; }
      }
    }
  }

  function Candidates(network: Block, desired: Block): (r: Result<seq<Block>, ChooseError>)
    requires WellFormed(network) && WellFormed(desired)
  {
    match Slash24s(network)
    case Err(e) => Err(e)
    case Ok(blocks) => Ok((if SubnetOf(desired, network) then [desired] else []) + blocks)
  }

  lemma Slash24Size()
    ensures Pow2(8) == 256
  {
    assert Pow2(4) == 16;
    Pow2Sum(4, 4);
  }

  lemma Slash24Inside(network: Block, i: nat)
    requires WellFormed(network) && network.prefix <= 24 && i < Pow2(24 - network.prefix)
    ensures WellFormed(Block(network.base + 256 * i, 24)) && SubnetOf(Block(network.base + 256 * i, 24), network)
  {
    Slash24Size();
    var b := Block(network.base + 256 * i, 24);
    var p, _ := AlignedIn(network, b);
    assert (p + i) * 256 == p * 256 + i * 256;
    ModOfMultiple(p + i, 0, 256);
    Pow2Sum(24 - network.prefix, 8);
    MultiplesUp(i, Pow2(24 - network.prefix), 256);
  }

  lemma Slash24sInside(network: Block)
    requires WellFormed(network) && Slash24s(network).Ok?
    ensures forall b :: b in Slash24s(network).value ==> WellFormed(b) && SubnetOf(b, network)
    ensures network.prefix <= 24 ==>
              var bs := Slash24s(network).value;
              && |bs| == Min(256, Pow2(24 - network.prefix))
              && forall i :: 0 <= i < |bs| ==> bs[i] == Block(network.base + 256 * i, 24) && WellFormed(bs[i])
  {
    if network.prefix <= 24 {
      var bs := Slash24s(network).value;
      forall i | 0 <= i < |bs| ensures WellFormed(bs[i]) && SubnetOf(bs[i], network) {
        Slash24Inside(network, i);
      }
    }
  }

  function Choose(network: Block, occupied: seq<Block>, reserved: seq<Block>, desired: Block)
    : (r: Result<Option<Block>, ChooseError>)
    requires WellFormed(network) && WellFormed(desired)
    requires forall t :: t in occupied + reserved ==> WellFormed(t)
  {
    match Candidates(network, desired)
    case Err(e) => Err(e)
    case Ok(candidates) =>
      assert forall b :: b in candidates ==> WellFormed(b) by { Slash24sInside(network); }
      Ok(FirstFree(candidates, occupied + reserved))
  }

  /** A returned block is usable, and none is returned only when every candidate collides. */
  lemma ChooseIsSound(network: Block, occupied: seq<Block>, reserved: seq<Block>, desired: Block)
    requires WellFormed(network) && WellFormed(desired)
    requires forall t :: t in occupied + reserved ==> WellFormed(t)
    ensures var r := Choose(network, occupied, reserved, desired);
            && (r.Err? <==> 24 < network.prefix < 32)
            && (r.Ok? && r.value.Some? ==>
                  && WellFormed(r.value.value) && SubnetOf(r.value.value, network)
                  && (forall t :: t in occupied ==> !Overlaps(r.value.value, t))
                  && (forall t :: t in reserved ==> !Overlaps(r.value.value, t)))
            && (r.Ok? && SubnetOf(desired, network) && Free(desired, occupied + reserved) ==> r.value == Some(desired))
            && (r.Ok? ==>
                  (r.value == None <==>
                     forall b :: b in Candidates(network, desired).value ==>
                       WellFormed(b) && exists t :: t in occupied + reserved && Overlaps(b, t)))
  {
    var r := Choose(network, occupied, reserved, desired);
    if r.Ok? {
      Slash24sInside(network);
      var candidates := Candidates(network, desired).value;
      var _ := FirstFreeIsFirst(candidates, occupied + reserved);
      if r.value.Some? {
        var b := r.value.value;
        assert Free(b, occupied + reserved);
        forall t | t in occupied || t in reserved ensures !Overlaps(b, t) { assert t in occupied + reserved; }
      }
      if SubnetOf(desired, network) {
        assert candidates[0] == desired;
      }
    }
  }

  /** The aligned /24 block number `i` of a network. */
  function Nth(network: Block, i: nat): Block {
    Block(network.base + 256 * i, 24)
  }

  /** Block number `i` exists, is free, and no block before it is. */
  ghost predicate FirstFreeNth(network: Block, taken: seq<Block>, i: int)
    requires WellFormed(network) && network.prefix <= 24 && forall t :: t in taken ==> WellFormed(t)
  {
    && 0 <= i < 256 && i < Pow2(24 - network.prefix)
    && FreeNth(network, taken, i) && forall j :: 0 <= j < i ==> !FreeNth(network, taken, j)
  }

  ghost predicate FreeNth(network: Block, taken: seq<Block>, i: nat)
    requires forall t :: t in taken ==> WellFormed(t)
  {
    WellFormed(Nth(network, i)) && forall t :: t in taken ==> !Overlaps(Nth(network, i), t)
  }

  /**
   What is chosen: the desired block if it lies in the network and is free; otherwise the first of the network's
   first 256 aligned /24 blocks that is free, and none exactly when there is no such block. A single address stands
   for itself.
   */
  lemma ChooseIsFirstFree(network: Block, occupied: seq<Block>, reserved: seq<Block>, desired: Block)
    requires WellFormed(network) && WellFormed(desired)
    requires forall t :: t in occupied + reserved ==> WellFormed(t)
    ensures var r, taken := Choose(network, occupied, reserved, desired), occupied + reserved;
            var wanted := SubnetOf(desired, network) && forall t :: t in taken ==> !Overlaps(desired, t);
            && (24 < network.prefix < 32 <==> r == Err(PrefixTooLong))
            && (network.prefix <= 24 || network.prefix == 32 ==> (wanted ==> r == Ok(Some(desired))))
            && (network.prefix == 32 && !wanted ==>
                  r == Ok(if forall t :: t in taken ==> !Overlaps(network, t) then Some(network) else None))
            && (network.prefix <= 24 && !wanted ==>
                  && (forall i :: FirstFreeNth(network, taken, i) ==> r == Ok(Some(Nth(network, i))))
                  && (r == Ok(None) <==> forall i :: !FirstFreeNth(network, taken, i)))
  {
    var taken := occupied + reserved;
    if network.prefix == 32 {
      SingleAddress(network, taken, desired);
    } else if network.prefix <= 24 {
      Slash24sInside(network);
      var blocks := Slash24s(network).value;
      FirstFreeIsNth(network, taken);
      var rest := if SubnetOf(desired, network) then [desired] else [];
      if SubnetOf(desired, network) { assert ([desired] + blocks)[1..] == blocks; }
        else { assert [] + blocks == blocks; }
    }
  }

  lemma SingleAddress(network: Block, taken: seq<Block>, desired: Block)
    requires WellFormed(network) && WellFormed(desired) && network.prefix == 32
    requires forall t :: t in taken ==> WellFormed(t)
    ensures FirstFree([network], taken) == if Free(network, taken) then Some(network) else None
    ensures FirstFree([desired, network], taken) ==
            if Free(desired, taken) then Some(desired) else if Free(network, taken) then Some(network) else None
  {
    assert [network][1..] == [] && [desired, network][1..] == [network];
    assert FirstFree([], taken) == None;
  }

  lemma FirstFreeIsNth(network: Block, taken: seq<Block>)
    requires WellFormed(network) && network.prefix <= 24 && forall t :: t in taken ==> WellFormed(t)
    ensures forall b :: b in Slash24s(network).value ==> WellFormed(b)
    ensures var r := FirstFree(Slash24s(network).value, taken);
            && (forall i :: FirstFreeNth(network, taken, i) ==> r == Some(Nth(network, i)))
            && (r == None <==> forall i :: !FirstFreeNth(network, taken, i))
  {
    hide Overlaps, WellFormed, Pow2, FirstFree, SubnetOf;
    Slash24sInside(network);
    var blocks := Slash24s(network).value;
    var n := FirstFreeIsFirst(blocks, taken);
    assert forall i :: 0 <= i < |blocks| ==> (FreeNth(network, taken, i) <==> Free(blocks[i], taken));
    if n < |blocks| {
      assert Free(blocks[n], taken);
      assert FirstFreeNth(network, taken, n);
    }
    forall i | FirstFreeNth(network, taken, i) ensures i == n && n < |blocks| {
      assert Free(blocks[i], taken);
    }
  }

  // ---------- completeness by pigeonhole ----------

  /** A block of length at least 24 meets at most one of the aligned /24 blocks. */
  lemma MeetsOne(network: Block, t: Block, i: nat, j: nat)
    requires WellFormed(network) && network.prefix <= 24 && WellFormed(t) && t.prefix >= 24
    requires i < |Slash24s(network).value| && j < |Slash24s(network).value|
    requires WellFormed(Slash24s(network).value[i]) && WellFormed(Slash24s(network).value[j])
    requires Overlaps(Slash24s(network).value[i], t) && Overlaps(Slash24s(network).value[j], t)
    ensures i == j
  {
    Slash24sInside(network);
    var a, b := Slash24s(network).value[i], Slash24s(network).value[j];
    OverlapIsNesting(a, t);
    OverlapIsNesting(b, t);
    var _, _ := AlignedIn(a, t);
    Slash24Size();
  }

  lemma {:induction false} CoverBound(network: Block, cover: set<nat>, taken: seq<Block>)
    requires WellFormed(network) && network.prefix <= 24
    requires forall t :: t in taken ==> WellFormed(t) && t.prefix >= 24
    requires forall i :: i in cover ==> i < |Slash24s(network).value| && WellFormed(Slash24s(network).value[i])
                                        && !Free(Slash24s(network).value[i], taken)
    ensures |cover| <= |taken|
  {
    if taken == [] {
      assert cover == {};
    } else {
      var blocks, t, rest := Slash24s(network).value, taken[0], taken[1..];
      assert forall u :: u in taken ==> u == t || u in rest;
      if i :| i in cover && Overlaps(blocks[i], t) {
        forall k | k in cover - {i} ensures !Free(blocks[k], rest) {
          if Overlaps(blocks[k], t) { MeetsOne(network, t, i, k); }
        }
        CoverBound(network, cover - {i}, rest);
      } else {
        CoverBound(network, cover, rest);
      }
    }
  }

  ghost function Below(n: nat): (s: set<nat>)
    ensures |s| == n && forall i :: i in s <==> 0 <= i < n
  {
    if n == 0 then {} else Below(n - 1) + {n - 1}
  }

  /** Fewer than min(256, 2^(24-p)) taken blocks of length at least 24 cannot exhaust a /p network. */
  lemma ChooseIsComplete(network: Block, occupied: seq<Block>, reserved: seq<Block>, desired: Block)
    requires WellFormed(network) && WellFormed(desired) && network.prefix <= 24
    requires forall t :: t in occupied + reserved ==> WellFormed(t) && t.prefix >= 24
    requires |occupied| + |reserved| < Min(256, Pow2(24 - network.prefix))
    ensures Choose(network, occupied, reserved, desired).Ok?
    ensures Choose(network, occupied, reserved, desired).value.Some?
  {
    Slash24sInside(network);
    var blocks := Slash24s(network).value;
    var taken := occupied + reserved;
    if Choose(network, occupied, reserved, desired).value == None {
      var n := FirstFreeIsFirst(Candidates(network, desired).value, taken);
      forall i: nat | i < |blocks| ensures !Free(blocks[i], taken) {
        assert blocks[i] in Candidates(network, desired).value;
      }
      CoverBound(network, Below(|blocks|), taken);
      assert false;
    }
  }
}
