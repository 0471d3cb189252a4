/** Splitting one processor request into its blocks (teamCache/split.c). */
module Split {
  import opened Protocol
  import opened Bits
  import opened Geometry

  datatype Kind = Load | Store | NotMemory

  datatype Access = Access(kind: Kind, addr: nat, size: int)

  datatype Status = Queued | WaitingBuffer | WaitingEviction | WaitingData | Ready

  /** A line's place. */
  datatype Loc = Loc(set_: nat, way: nat)

  /** cache_request: one block of a processor request. */
  datatype Part = Part(kind: Kind, addr: nat, size: nat, proc: int, tag: int, status: Status,
                       target: Option<Loc>, victim: nat, index: nat)

  /** The range check: the last byte has a 64-bit address. */
  predicate InRange(op: Access) {
    op.size > 0 && op.size - 1 <= WORD - 1 - op.addr
  }

  function PartCount(p: Params, op: Access): (n: nat)
    requires InRange(op)
    ensures n >= 1
  {
    Ordered(op.addr, op.addr + op.size - 1, p.B());
    p.BlockNumber(op.addr + op.size - 1) - p.BlockNumber(op.addr) + 1
  }

  lemma {:induction false} Ordered(a: nat, b: nat, d: nat)
    requires a <= b && d >= 1
    ensures Quotient(a, d) <= Quotient(b, d)
  {
    DivMod(a, d);
    DivMod(b, d);
    var j, k := Quotient(a, d), Quotient(b, d);
    assert (j - k) * d == j * d - k * d;
    if j > k { MulAtLeast(j - k, d); }
  }

  /** Where block i of the request begins: the first where the request does, the others where the
      block does. */
  function PartAddr(p: Params, op: Access, i: nat): nat {
    if i == 0 then op.addr else (p.BlockNumber(op.addr) + i) * p.B()
  }

  function PartEnd(p: Params, op: Access, i: nat): int {
    var blockEnd := (p.BlockNumber(op.addr) + i + 1) * p.B();
    if blockEnd <= op.addr + op.size then blockEnd else op.addr + op.size
  }

  function PartSize(p: Params, op: Access, i: nat): nat {
    if PartEnd(p, op, i) >= PartAddr(p, op, i) then PartEnd(p, op, i) - PartAddr(p, op, i) else 0
  }

  function MakePart(p: Params, op: Access, proc: int, tag: int, i: nat): Part {
    Part(op.kind, PartAddr(p, op, i), PartSize(p, op, i), proc, tag, Queued, None, 0, i)
  }

  function Parts(p: Params, op: Access, proc: int, tag: int): seq<Part>
    requires InRange(op)
  {
    seq(PartCount(p, op), i requires 0 <= i < PartCount(p, op) => MakePart(p, op, proc, tag, i))
  }

  lemma {:induction false} Distribute(a: nat, b: nat, d: nat)
    ensures (a + b) * d == a * d + b * d
  {}

  /** Block i of a request: its start and end lie in block number (addr >> b) + i. */
  lemma {:induction false} PartBounds(p: Params, op: Access, i: nat)
    requires InRange(op) && i < PartCount(p, op)
    ensures p.BlockNumber(PartAddr(p, op, i)) == p.BlockNumber(op.addr) + i
    ensures p.BlockNumber(op.addr + op.size - 1) >= p.BlockNumber(op.addr) + i
    ensures PartAddr(p, op, i) < PartEnd(p, op, i) <= op.addr + op.size
    ensures PartEnd(p, op, i) <= (p.BlockNumber(op.addr) + i) * p.B() + p.B()
    ensures i + 1 < PartCount(p, op) ==> PartEnd(p, op, i) == PartAddr(p, op, i + 1)
    ensures i + 1 == PartCount(p, op) ==> PartEnd(p, op, i) == op.addr + op.size
  {
    var d, n, m := p.B(), p.BlockNumber(op.addr), p.BlockNumber(op.addr + op.size - 1);
    DivMod(op.addr, d);
    DivMod(op.addr + op.size - 1, d);
    if i > 0 { DivUnique((n + i) * d, d, n + i, 0); }
    Distribute(n + i, 1, d);
    Distribute(n, i, d);
    assert n + i <= m;
    MulMonotone(n + i, m, d);
    if i + 1 < PartCount(p, op) {
      MulMonotone(n + i + 1, m, d);
    } else {
      assert n + i + 1 == m + 1;
      Distribute(m, 1, d);
    }
    if i > 0 { MulMonotone(n + 1, n + i, d); Distribute(n, 1, d); }
  }

  lemma {:induction false} MulMonotone(a: nat, b: nat, d: nat)
    requires a <= b
    ensures a * d <= b * d
  {}

  ghost function TotalSize(parts: seq<Part>): nat {
    if parts == [] then 0 else TotalSize(parts[..|parts| - 1]) + parts[|parts| - 1].size
  }

  /** n bytes at a are non-empty, within 64 bits, and lie in block number (addr >> b) + i. */
  ghost predicate InBlock(p: Params, op: Access, a: nat, n: nat, i: nat) {
    && 1 <= n <= p.B() && a + n - 1 < WORD
    && p.BlockNumber(a) == p.BlockNumber(op.addr) + i
    && p.BlockNumber(a + n - 1) == p.BlockNumber(op.addr) + i
  }

  /** The parts partition the request: one block each, in block order, contiguous from the request's
      first byte on, with sizes that add up to the request; their number is the completion count. */
  lemma {:induction false} ExactPartition(p: Params, op: Access, proc: int, tag: int)
    requires InRange(op)
    ensures var parts := Parts(p, op, proc, tag);
            && |parts| == PartCount(p, op) && parts != [] && parts[0].addr == op.addr
            && (forall i :: 0 <= i < |parts| ==> InBlock(p, op, parts[i].addr, parts[i].size, i))
            && (forall i :: 0 <= i < |parts| - 1 ==> parts[i + 1].addr == parts[i].addr + parts[i].size)
            && TotalSize(parts) == op.size
  {
    var parts := Parts(p, op, proc, tag);
    forall i | 0 <= i < |parts|
      ensures InBlock(p, op, parts[i].addr, parts[i].size, i)
      ensures i + 1 < |parts| ==> parts[i + 1].addr == parts[i].addr + parts[i].size
    {
      OnePart(p, op, i);
    }
    SizesAddUp(p, op, proc, tag, |parts|);
    assert parts[..|parts|] == parts;
    LastEnd(p, op, |parts| - 1);
  }

  lemma {:induction false} PartsFit(p: Params, op: Access, proc: int, tag: int)
    requires InRange(op)
    ensures var parts := Parts(p, op, proc, tag);
            forall k :: 0 <= k < |parts| ==> parts[k].addr < WORD && parts[k].addr + parts[k].size <= WORD
  {
    ExactPartition(p, op, proc, tag);
  }

  lemma {:induction false} LastEnd(p: Params, op: Access, i: nat)
    requires InRange(op) && i + 1 == PartCount(p, op)
    ensures PartEnd(p, op, i) == op.addr + op.size
  {}

  lemma {:induction false} OnePart(p: Params, op: Access, i: nat)
    requires InRange(op) && i < PartCount(p, op)
    ensures var a, n := PartAddr(p, op, i), PartSize(p, op, i);
            InBlock(p, op, a, n, i) && (i + 1 < PartCount(p, op) ==> PartAddr(p, op, i + 1) == a + n)
  {
    PartBounds(p, op, i);
    OneBlock(p, op, i);
  }

  lemma {:induction false} OneBlock(p: Params, op: Access, i: nat)
    requires InRange(op) && i < PartCount(p, op)
    ensures p.BlockNumber(PartEnd(p, op, i) - 1) == p.BlockNumber(op.addr) + i
    ensures PartSize(p, op, i) <= p.B()
  {
    PartBounds(p, op, i);
    var d, n, a := p.B(), p.BlockNumber(op.addr) + i, PartAddr(p, op, i);
    DivMod(a, d);
    var r := PartEnd(p, op, i) - 1 - n * d;
    DivUnique(PartEnd(p, op, i) - 1, d, n, r);
  }

  lemma {:induction false} SizesAddUp(p: Params, op: Access, proc: int, tag: int, k: nat)
    requires InRange(op) && 1 <= k <= PartCount(p, op)
    ensures op.addr + TotalSize(Parts(p, op, proc, tag)[..k]) == PartEnd(p, op, k - 1)
  {
    var parts := Parts(p, op, proc, tag);
    PartBounds(p, op, k - 1);
    assert parts[..k][..k - 1] == parts[..k - 1];
    if k > 1 {
      SizesAddUp(p, op, proc, tag, k - 1);
      PartBounds(p, op, k - 2);
    }
  }

  /** The loop of cache_split_prepare. `address` is not advanced past the last byte, so it never
      leaves 64 bits. */
  method SplitLoop(p: Params, op: Access, proc: int, tag: int) returns (queue: seq<Part>)
    requires InRange(op)
    ensures queue == Parts(p, op, proc, tag)
    ensures forall k :: 0 <= k < |queue| ==> queue[k].addr < WORD && queue[k].addr + queue[k].size <= WORD
  {
    Ordered(op.addr, op.addr + op.size - 1, p.B());
    var total: nat := p.BlockNumber(op.addr + op.size - 1) - p.BlockNumber(op.addr) + 1;
    var remaining: nat := op.size;
    var address: nat := op.addr;
    queue := [];
    var index: nat := 0;
    while index < total
      invariant index <= total == PartCount(p, op) && |queue| == index
      invariant forall k :: 0 <= k < index ==> queue[k] == MakePart(p, op, proc, tag, k)
      invariant index < total ==> Here(p, op, index, address, remaining)
      invariant index == total ==> remaining == 0
    {
      var available := p.B() - Remainder(address, p.B());
      var bytes := if remaining < available then remaining else available;
      Round(p, op, index, address, remaining, bytes);
      queue := queue + [Part(op.kind, address, bytes, proc, tag, Queued, None, 0, index)];
      remaining := remaining - bytes;
      if remaining != 0 {
        address := address + bytes;
      }
      index := index + 1;
    }
    PartsFit(p, op, proc, tag);
  }

  /** The loop is at part i. */
  ghost predicate Here(p: Params, op: Access, i: nat, address: nat, remaining: nat) {
    address == PartAddr(p, op, i) && address + remaining == op.addr + op.size && address < WORD
  }

  lemma {:induction false} Round(p: Params, op: Access, i: nat, address: nat, remaining: nat, bytes: nat)
    requires InRange(op) && i < PartCount(p, op) && Here(p, op, i, address, remaining)
    requires var available := p.B() - Remainder(address, p.B());
             bytes == if remaining < available then remaining else available
    ensures bytes == PartSize(p, op, i) && bytes <= remaining
    ensures i + 1 < PartCount(p, op) ==> remaining - bytes != 0 && Here(p, op, i + 1, address + bytes, remaining - bytes)
    ensures i + 1 == PartCount(p, op) ==> remaining == bytes
  {
    StepSize(p, op, i);
    PartBounds(p, op, i);
    if i + 1 < PartCount(p, op) { PartBounds(p, op, i + 1); }
  }

  /** What one round takes: to the end of the block or of the request. */
  lemma {:induction false} StepSize(p: Params, op: Access, i: nat)
    requires InRange(op) && i < PartCount(p, op)
    ensures var a := PartAddr(p, op, i);
            var available := p.B() - Remainder(a, p.B());
            var remaining := op.addr + op.size - a;
            PartSize(p, op, i) == if remaining < available then remaining else available
  {
    PartBounds(p, op, i);
    var d, n := p.B(), p.BlockNumber(op.addr) + i;
    DivMod(PartAddr(p, op, i), d);
    Distribute(n, 1, d);
  }
}
