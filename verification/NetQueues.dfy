/**
 * The transmit and receive loops of a network device over virtio queues (section 2.6 of the VIRTIO
 * specification 1.1): which chains are handed back to the driver, in which order, and what is counted.
 */
module NetQueues {
  import opened Wrappers

  const U64: nat := 0x1_0000_0000_0000_0000
  const VNET_HDR_LEN: nat := 12

  datatype Desc = Desc(len: nat, writeOnly: bool)

  /** A chain of descriptors the driver made available. */
  datatype Chain = Chain(head: nat, descs: seq<Desc>)

  /** What reading from or writing to the tap device gives. */
  datatype TapResult = Transferred(n: nat) | WouldBlock | Failed

  datatype NetError = WriteTap | ReadTap | DescriptorChainTooShort | DescriptorChainInvalid

  type NetResult<+T> = Result<T, NetError>

  /** Every descriptor can be used in this direction. */
  predicate Usable(c: Chain, writeOnly: bool) {
    forall i :: 0 <= i < |c.descs| ==> c.descs[i].writeOnly == writeOnly && c.descs[i].len > 0
  }

  /** The entry of the used ring for a chain. */
  function UsedEntry(c: Chain, t: TapResult): (nat, nat) {
    (c.head, if c.descs != [] && t.Transferred? then t.n else 0)
  }

  /** The entries of the used ring for chains that were completed with these results. */
  function UsedEntries(cs: seq<Chain>, tap: seq<TapResult>): (u: seq<(nat, nat)>)
    requires |cs| <= |tap|
    ensures |u| == |cs| && forall i :: 0 <= i < |cs| ==> u[i] == UsedEntry(cs[i], tap[i])
  {
    seq(|cs|, i requires 0 <= i < |cs| => UsedEntry(cs[i], tap[i]))
  }

  function Frames(cs: seq<Chain>): nat {
    if cs == [] then 0 else Frames(cs[..|cs| - 1]) + if cs[|cs| - 1].descs != [] then 1 else 0
  }

  /** The payload of the frames, without their headers: what the entries of the used ring say was moved. */
  function Payload(cs: seq<Chain>, used: seq<(nat, nat)>): int
    requires |cs| == |used|
  {
    if cs == [] then 0 else
    var n := |cs| - 1;
    Payload(cs[..n], used[..n]) + if cs[n].descs != [] then used[n].1 - VNET_HDR_LEN else 0
  }

  /** 64-bit wrapping arithmetic. */
  function Wrap(x: int): (n: nat)
    ensures n < U64
  {
    x % U64
  }

  class Queue {
    var avail: seq<Chain>         // everything the driver has made available so far
    var nextAvail: nat            // the next chain to take
    var used: seq<(nat, nat)>     // everything handed back

    ghost predicate Valid()
      reads this
    {
      nextAvail <= |avail|
    }

    /** Every chain taken was handed back, in order and once. */
    ghost predicate InOrder()
      reads this
    {
      Valid() && |used| == nextAvail && forall i :: 0 <= i < nextAvail ==> used[i].0 == avail[i].head
    }

    /** The driver adds chains; nothing else can happen to the ring from its side. */
    method MakeAvailable(cs: seq<Chain>)
      requires Valid()
      modifies this`avail
      ensures Valid() && avail == old(avail) + cs && (old(InOrder()) ==> InOrder())
    {
      avail := avail + cs;
    }

    method AddUsed(head: nat, len: nat)
      modifies this`used
      ensures used == old(used) + [(head, len)]
    {
      used := used + [(head, len)];
    }
  }

  /** `k` chains were completed: handed back in order, counted, and none went on past the rate limit. */
  ghost predicate Completed(avail: seq<Chain>, next: nat, k: nat, writeOnly: bool, tap: seq<TapResult>,
                            limited: seq<bool>,
                            used: seq<(nat, nat)>, used': seq<(nat, nat)>, frames: nat, frames': nat, bytes: nat,
                            bytes': nat)
  {
    && next + k <= |avail| && k <= |tap| && k <= |limited|
    && used' == used + UsedEntries(avail[next..next + k], tap)
    && frames' == Wrap(frames + Frames(avail[next..next + k]))
    && bytes' == Wrap(bytes + Payload(avail[next..next + k], UsedEntries(avail[next..next + k], tap)))
    && (forall i :: 0 <= i < k ==>
          Usable(avail[next + i], writeOnly) && (avail[next + i].descs != [] ==> tap[i].Transferred?))
    && (forall i :: 0 <= i < k - 1 ==> !limited[i])
  }

  /** The chain at hand can be completed: it is usable, and the tap takes or fills it. */
  predicate Goes(c: Chain, t: TapResult, rx: bool) {
    Usable(c, rx) && (rx ==> c.descs != []) && (c.descs != [] ==> t.Transferred?)
  }

  /** The chain at hand makes the call fail: a wrong descriptor, an error of the tap, or nothing to receive into. */
  predicate Breaks(c: Chain, t: TapResult, rx: bool) {
    !Usable(c, rx) || (if c.descs == [] then rx else t.Failed?)
  }

  /** Whether a call looks at chain `i` once it is done with those before. */
  predicate LooksAt(avail: seq<Chain>, next: nat, tap: seq<TapResult>, limited: seq<bool>, i: nat) {
    next + i < |avail| && i < |tap| && i < |limited| && (i > 0 ==> !limited[i - 1])
  }

  /** How many chains a call completes, from chain `i` on, before it stops. */
  function Taken(avail: seq<Chain>, next: nat, rx: bool, tap: seq<TapResult>, limited: seq<bool>, i: nat): nat
    decreases |avail| - (next + i)
  {
    if LooksAt(avail, next, tap, limited, i) && Goes(avail[next + i], tap[i], rx)
    then Taken(avail, next, rx, tap, limited, i + 1) else i
  }

  /** The call fails: it stops at a chain that breaks it. */
  predicate Fails(avail: seq<Chain>, next: nat, rx: bool, tap: seq<TapResult>, limited: seq<bool>) {
    FailsAt(avail, next, rx, tap, limited, Taken(avail, next, rx, tap, limited, 0))
  }

  predicate FailsAt(avail: seq<Chain>, next: nat, rx: bool, tap: seq<TapResult>, limited: seq<bool>, m: nat) {
    LooksAt(avail, next, tap, limited, m) && Breaks(avail[next + m], tap[m], rx)
  }

  /** Said without counting: every chain before `m` goes and leaves the limit alone, and chain `m` breaks the call. */
  ghost predicate BreaksFirst(avail: seq<Chain>, next: nat, rx: bool, tap: seq<TapResult>, limited: seq<bool>, m: nat) {
    && next + m < |avail| && m < |tap| && m < |limited| && Breaks(avail[next + m], tap[m], rx)
    && forall i :: 0 <= i < m ==> Goes(avail[next + i], tap[i], rx) && !limited[i]
  }

  /** A call fails exactly if some chain breaks it that it gets to. */
  lemma FailsExactly(avail: seq<Chain>, next: nat, rx: bool, tap: seq<TapResult>, limited: seq<bool>)
    ensures Fails(avail, next, rx, tap, limited) <==> exists m: nat :: BreaksFirst(avail, next, rx, tap, limited, m)
  {
    hide Goes, Breaks;
    var k := Taken(avail, next, rx, tap, limited, 0);
    TakenGoes(avail, next, rx, tap, limited, 0);
    if Fails(avail, next, rx, tap, limited) {
      forall i | 0 <= i < k
        ensures Goes(avail[next + i], tap[i], rx) && !limited[i]
      {
        assert LooksAt(avail, next, tap, limited, i + 1);
      }
      assert BreaksFirst(avail, next, rx, tap, limited, k);
    }
    if m: nat :| BreaksFirst(avail, next, rx, tap, limited, m) {
      forall j | 0 <= j < m
        ensures LooksAt(avail, next, tap, limited, j) && Goes(avail[next + j], tap[j], rx)
      {
        assert j > 0 ==> !limited[j - 1];
      }
      BreakStops(avail[next + m], tap[m], rx);
      TakenIs(avail, next, rx, tap, limited, 0, m);
    }
  }

  lemma BreakStops(c: Chain, t: TapResult, rx: bool)
    ensures Breaks(c, t, rx) ==> !Goes(c, t, rx)
  {
    hide Usable;
  }

  lemma {:induction false} TakenGoes(avail: seq<Chain>, next: nat, rx: bool, tap: seq<TapResult>,
                                     limited: seq<bool>, i: nat)
    ensures var k := Taken(avail, next, rx, tap, limited, i);
            && i <= k
            && (forall j :: i <= j < k ==> LooksAt(avail, next, tap, limited, j) && Goes(avail[next + j], tap[j], rx))
            && !(LooksAt(avail, next, tap, limited, k) && Goes(avail[next + k], tap[k], rx))
    decreases |avail| - (next + i)
  {
    hide Goes;
    if LooksAt(avail, next, tap, limited, i) && Goes(avail[next + i], tap[i], rx) {
      TakenGoes(avail, next, rx, tap, limited, i + 1);
    }
  }

  lemma {:induction false} TakenIs(avail: seq<Chain>, next: nat, rx: bool, tap: seq<TapResult>, limited: seq<bool>,
                                   i: nat, m: nat)
    requires i <= m
    requires (forall j :: i <= j < m ==> LooksAt(avail, next, tap, limited, j) && Goes(avail[next + j], tap[j], rx))
    requires LooksAt(avail, next, tap, limited, m) ==> !Goes(avail[next + m], tap[m], rx)
    ensures Taken(avail, next, rx, tap, limited, i) == m
    decreases m - i
  {
    hide Goes;
    if i < m {
      TakenIs(avail, next, rx, tap, limited, i + 1, m);
    }
  }

  /** What a call has completed when it stops is what it takes. */
  lemma CompletedAll(avail: seq<Chain>, next: nat, k: nat, rx: bool, tap: seq<TapResult>, limited: seq<bool>,
                     used: seq<(nat, nat)>, used': seq<(nat, nat)>, frames: nat, frames': nat, bytes: nat, bytes': nat)
    requires Completed(avail, next, k, rx, tap, limited, used, used', frames, frames', bytes, bytes')
    requires rx ==> NoneEmpty(avail, next, next + k)
    requires LooksAt(avail, next, tap, limited, k) ==> !Goes(avail[next + k], tap[k], rx)
    ensures Taken(avail, next, rx, tap, limited, 0) == k
  {
    hide Usable, UsedEntries, Frames, Payload, Wrap;
    forall j | 0 <= j < k
      ensures LooksAt(avail, next, tap, limited, j) && Goes(avail[next + j], tap[j], rx)
    {
      assert j > 0 ==> !limited[j - 1];
    }
    TakenIs(avail, next, rx, tap, limited, 0, k);
  }

  predicate NoneEmpty(avail: seq<Chain>, lo: nat, hi: nat) {
    forall j :: lo <= j < hi && j < |avail| ==> avail[j].descs != []
  }

  /** A descriptor of the wrong kind, one to write in a chain to send or the other way round: the chain is lost. */
  lemma WrongDescriptorFails(head: nat, rx: bool, t: TapResult)
    ensures Fails([Chain(head, [Desc(64, !rx)])], 0, rx, [t], [false])
    ensures Taken([Chain(head, [Desc(64, !rx)])], 0, rx, [t], [false], 0) == 0
  {
    var c := Chain(head, [Desc(64, !rx)]);
    assert c.descs[0].writeOnly != rx;
    assert !Usable(c, rx);
  }

  /** An error of the tap, and an empty chain to receive into. */
  lemma TapErrorFails(head: nat)
    ensures Fails([Chain(head, [Desc(64, false)])], 0, false, [Failed], [false])
    ensures Fails([Chain(head, [])], 0, true, [WouldBlock], [false])
  {
  }

  lemma NothingCompleted(avail: seq<Chain>, next: nat, writeOnly: bool, tap: seq<TapResult>, limited: seq<bool>,
                         used: seq<(nat, nat)>, frames: nat, bytes: nat)
    requires next <= |avail| && frames < U64 && bytes < U64
    ensures Completed(avail, next, 0, writeOnly, tap, limited, used, used, frames, frames, bytes, bytes)
  {
    assert avail[next..next] == [];
    assert UsedEntries([], tap) == [];
  }

  lemma OneMore(avail: seq<Chain>, next: nat, k: nat, writeOnly: bool, tap: seq<TapResult>, limited: seq<bool>,
                used: seq<(nat, nat)>, used1: seq<(nat, nat)>, frames: nat, frames1: nat, bytes: nat, bytes1: nat)
    requires Completed(avail, next, k, writeOnly, tap, limited, used, used1, frames, frames1, bytes, bytes1)
    requires next + k < |avail| && k < |tap| && k < |limited| && (k > 0 ==> !limited[k - 1])
    requires var c := avail[next + k]; Usable(c, writeOnly) && (c.descs != [] ==> tap[k].Transferred?)
    ensures var c := avail[next + k];
            var n := if c.descs != [] then tap[k].n else 0;
            var frames2 := if c.descs != [] then Wrap(frames1 + 1) else frames1;
            var bytes2 := if c.descs != [] then Wrap(bytes1 + (n - VNET_HDR_LEN)) else bytes1;
            Completed(avail, next, k + 1, writeOnly, tap, limited, used, used1 + [(c.head, n)], frames, frames2,
                      bytes, bytes2)
  {
    hide UsedEntries, Usable, Wrap, Frames, Payload;
    var cs, cs1, c := avail[next..next + k], avail[next..next + k + 1], avail[next + k];
    assert cs1[..k] == cs && cs1[k] == c;
    CountedMore(cs1, tap);
    ModAdd(frames + Frames(cs), 1);
    if c.descs != [] {
      ModAdd(bytes + Payload(cs, UsedEntries(cs, tap)), tap[k].n - VNET_HDR_LEN);
    }
  }

  lemma UsedMore(cs: seq<Chain>, tap: seq<TapResult>)
    requires 0 < |cs| <= |tap|
    ensures var n := |cs| - 1; UsedEntries(cs, tap) == UsedEntries(cs[..n], tap) + [UsedEntry(cs[n], tap[n])]
  {
  }

  /** What one more chain adds. */
  lemma CountedMore(cs: seq<Chain>, tap: seq<TapResult>)
    requires 0 < |cs| <= |tap|
    ensures var n := |cs| - 1;
            && UsedEntries(cs, tap) == UsedEntries(cs[..n], tap) + [UsedEntry(cs[n], tap[n])]
            && Frames(cs) == Frames(cs[..n]) + (if cs[n].descs != [] then 1 else 0)
            && Payload(cs, UsedEntries(cs, tap)) ==
               Payload(cs[..n], UsedEntries(cs[..n], tap))
               + (if cs[n].descs != [] then UsedEntry(cs[n], tap[n]).1 - VNET_HDR_LEN else 0)
  {
    hide UsedEntries;
    UsedMore(cs, tap);
    var n := |cs| - 1;
    assert UsedEntries(cs, tap)[..n] == UsedEntries(cs[..n], tap);
  }

  /** With every chain before handed back in order, the ring still is in order. */
  lemma StillInOrder(avail: seq<Chain>, next: nat, k: nat, writeOnly: bool, tap: seq<TapResult>, limited: seq<bool>,
                     used: seq<(nat, nat)>, used': seq<(nat, nat)>, frames: nat, frames': nat, bytes: nat, bytes': nat)
    requires Completed(avail, next, k, writeOnly, tap, limited, used, used', frames, frames', bytes, bytes')
    ensures |used| == next && (forall i :: 0 <= i < next ==> used[i].0 == avail[i].head) ==>
              |used'| == next + k && forall i :: 0 <= i < next + k ==> used'[i].0 == avail[i].head
  {
    hide Frames, Payload, Usable;
    if |used| == next && (forall i :: 0 <= i < next ==> used[i].0 == avail[i].head) {
      forall i | next <= i < next + k
        ensures used'[i].0 == avail[i].head
      {
        assert used'[i] == UsedEntries(avail[next..next + k], tap)[i - next];
        assert avail[next..next + k][i - next] == avail[i];
      }
    }
  }

  lemma ModAdd(a: int, b: int)
    ensures Wrap(Wrap(a) + b) == Wrap(a + b)
  {
  }

  class TxVirtio {
    var counterBytes: nat
    var counterFrames: nat

    constructor ()
      ensures counterBytes == 0 && counterFrames == 0
    {
      counterBytes, counterFrames := 0, 0;
    }

    /**
     * Sends available chains until there are none left, the tap is full, or the rate limit is reached.
     * `tap[i]` and `limited[i]` are what the tap and the limiter say about the `i`-th chain of this call.
     */
    method ProcessDescChain(queue: Queue, tap: seq<TapResult>, limited: seq<bool>)
      returns (r: NetResult<bool>, ghost k: nat)
      requires queue.Valid() && counterBytes < U64 && counterFrames < U64
      requires |queue.avail| - queue.nextAvail <= |tap| && |queue.avail| - queue.nextAvail <= |limited|
      modifies this, queue`nextAvail, queue`used
      ensures queue.Valid() && counterBytes < U64 && counterFrames < U64
      ensures Completed(queue.avail, old(queue.nextAvail), k, false, tap, limited, old(queue.used), queue.used,
                        old(counterFrames), counterFrames, old(counterBytes), counterBytes)
      ensures r.Ok? ==> queue.nextAvail == old(queue.nextAvail) + k
      ensures r.Ok? && r.value ==>
                && k < |tap| && queue.nextAvail < |queue.avail| && queue.avail[queue.nextAvail].descs != []
                && tap[k] == WouldBlock && (k > 0 ==> !limited[k - 1])
      ensures r.Ok? && !r.value ==> queue.nextAvail == |queue.avail| || (0 < k <= |limited| && limited[k - 1])
      ensures r.Err? <==> Fails(queue.avail, old(queue.nextAvail), false, tap, limited)
      ensures k == Taken(queue.avail, old(queue.nextAvail), false, tap, limited, 0)
      ensures r.Err? ==> queue.nextAvail == old(queue.nextAvail) + k + 1
      ensures r.Ok? && old(queue.InOrder()) ==> queue.InOrder()
    {
      hide Completed, Usable, Wrap, Taken;
      ghost var next, used, frames, bytes := queue.nextAvail, queue.used, counterFrames, counterBytes;
      var i := 0;
      var retryWrite, rateLimitReached := false, false;
      k := 0;
      NothingCompleted(queue.avail, next, false, tap, limited, used, frames, bytes);
      while true
        invariant queue.Valid() && queue.nextAvail == next + i && k == i && counterBytes < U64 && counterFrames < U64
        invariant !retryWrite && rateLimitReached == (i > 0 && limited[i - 1])
        invariant Completed(queue.avail, next, i, false, tap, limited, used, queue.used,
                            frames, counterFrames, bytes, counterBytes)
        decreases |queue.avail| - queue.nextAvail
      {
        if queue.nextAvail >= |queue.avail| {
          break;
        }
        var chain := queue.avail[queue.nextAvail];
        queue.nextAvail := queue.nextAvail + 1;
        if rateLimitReached {
          queue.nextAvail := queue.nextAvail - 1;
          break;
        }
        var usable := CheckDescs(chain, false);
        if !usable {
          CompletedAll(queue.avail, next, k, false, tap, limited, used, queue.used,
                       frames, counterFrames, bytes, counterBytes);
          return Err(DescriptorChainInvalid), k;
        }
        OneMoreUnlessBlocked(queue.avail, next, i, false, tap, limited, used, queue.used,
                             frames, counterFrames, bytes, counterBytes);
        var len := 0;
        if chain.descs != [] {
          if tap[i].WouldBlock? {
            queue.nextAvail := queue.nextAvail - 1;
            retryWrite := true;
            break;
          }
          if tap[i].Failed? {
            CompletedAll(queue.avail, next, k, false, tap, limited, used, queue.used,
                         frames, counterFrames, bytes, counterBytes);
            return Err(WriteTap), k;
          }
          counterBytes := Wrap(counterBytes + (tap[i].n - VNET_HDR_LEN));
          counterFrames := Wrap(counterFrames + 1);
          len := tap[i].n;
        }
        rateLimitReached := limited[i];
        queue.AddUsed(chain.head, len);
        i, k := i + 1, k + 1;
        if queue.nextAvail == |queue.avail| {
          // Enabling notifications found nothing new.
          break;
        }
      }
      CompletedAll(queue.avail, next, k, false, tap, limited, used, queue.used,
                   frames, counterFrames, bytes, counterBytes);
      StillInOrder(queue.avail, next, k, false, tap, limited, used, queue.used, frames, counterFrames, bytes,
                   counterBytes);
      return Ok(retryWrite), k;
    }
  }

  /** `OneMore`, for the case that the tap took the chain. */
  lemma OneMoreUnlessBlocked(avail: seq<Chain>, next: nat, k: nat, writeOnly: bool, tap: seq<TapResult>,
                             limited: seq<bool>, used: seq<(nat, nat)>, used1: seq<(nat, nat)>,
                             frames: nat, frames1: nat, bytes: nat, bytes1: nat)
    requires Completed(avail, next, k, writeOnly, tap, limited, used, used1, frames, frames1, bytes, bytes1)
    requires next + k < |avail| && k < |tap| && k < |limited| && (k > 0 ==> !limited[k - 1])
    requires Usable(avail[next + k], writeOnly)
    ensures var c := avail[next + k];
            c.descs == [] || tap[k].Transferred? ==>
              var n := if c.descs != [] then tap[k].n else 0;
              var frames2 := if c.descs != [] then Wrap(frames1 + 1) else frames1;
              var bytes2 := if c.descs != [] then Wrap(bytes1 + (n - VNET_HDR_LEN)) else bytes1;
              Completed(avail, next, k + 1, writeOnly, tap, limited, used, used1 + [(c.head, n)], frames, frames2,
                        bytes, bytes2)
  {
    hide Completed;
    if avail[next + k].descs == [] || tap[k].Transferred? {
      OneMore(avail, next, k, writeOnly, tap, limited, used, used1, frames, frames1, bytes, bytes1);
    }
  }

  /** Walks a chain and collects its buffers; a descriptor of the wrong kind is an error. */
  method CheckDescs(c: Chain, writeOnly: bool) returns (ok: bool)
    ensures ok == Usable(c, writeOnly)
  {
    for i := 0 to |c.descs|
      invariant forall j :: 0 <= j < i ==> c.descs[j].writeOnly == writeOnly && c.descs[j].len > 0
    {
      if c.descs[i].writeOnly != writeOnly || c.descs[i].len == 0 {
        return false;
      }
    }
    return true;
  }

  /** A receive call that fails at this chain loses it, unless it was the tap that failed. */
  function Lost(c: Chain): nat {
    if c.descs == [] || !Usable(c, true) then 1 else 0
  }

  class RxVirtio {
    var counterBytes: nat
    var counterFrames: nat

    constructor ()
      ensures counterBytes == 0 && counterFrames == 0
    {
      counterBytes, counterFrames := 0, 0;
    }

    /**
     * Receives into available chains until there are none left, the tap is empty, or the rate limit is
     * reached. Returns whether the chains ran out.
     */
    method ProcessDescChain(queue: Queue, tap: seq<TapResult>, limited: seq<bool>)
      returns (r: NetResult<bool>, ghost k: nat)
      requires queue.Valid() && counterBytes < U64 && counterFrames < U64
      requires |queue.avail| - queue.nextAvail <= |tap| && |queue.avail| - queue.nextAvail <= |limited|
      modifies this, queue`nextAvail, queue`used
      ensures queue.Valid() && counterBytes < U64 && counterFrames < U64
      ensures Completed(queue.avail, old(queue.nextAvail), k, true, tap, limited, old(queue.used), queue.used,
                        old(counterFrames), counterFrames, old(counterBytes), counterBytes)
      ensures r.Ok? ==> queue.nextAvail == old(queue.nextAvail) + k && (r.value <==> queue.nextAvail == |queue.avail|)
      ensures r.Ok? && !r.value ==> (k < |tap| && tap[k] == WouldBlock) || (0 < k <= |limited| && limited[k - 1])
      ensures r.Err? <==> Fails(queue.avail, old(queue.nextAvail), true, tap, limited)
      ensures k == Taken(queue.avail, old(queue.nextAvail), true, tap, limited, 0)
      ensures r.Err? ==>
                && old(queue.nextAvail) + k < |queue.avail|
                && queue.nextAvail == old(queue.nextAvail) + k + Lost(queue.avail[old(queue.nextAvail) + k])
      ensures r.Ok? && old(queue.InOrder()) ==> queue.InOrder()
    {
      hide Completed, Usable, Wrap, Taken;
      ghost var next, used, frames, bytes := queue.nextAvail, queue.used, counterFrames, counterBytes;
      var i := 0;
      var exhaustedDescs, rateLimitReached := true, false;
      k := 0;
      NothingCompleted(queue.avail, next, true, tap, limited, used, frames, bytes);
      while true
        invariant queue.Valid() && queue.nextAvail == next + i && k == i && counterBytes < U64 && counterFrames < U64
        invariant exhaustedDescs && rateLimitReached == (i > 0 && limited[i - 1])
        invariant NoneEmpty(queue.avail, next, next + i)
        invariant Completed(queue.avail, next, i, true, tap, limited, used, queue.used,
                            frames, counterFrames, bytes, counterBytes)
        decreases |queue.avail| - queue.nextAvail
      {
        if queue.nextAvail >= |queue.avail| {
          break;
        }
        var chain := queue.avail[queue.nextAvail];
        queue.nextAvail := queue.nextAvail + 1;
        if rateLimitReached {
          exhaustedDescs := false;
          queue.nextAvail := queue.nextAvail - 1;
          break;
        }
        if chain.descs == [] {
          CompletedAll(queue.avail, next, k, true, tap, limited, used, queue.used,
                       frames, counterFrames, bytes, counterBytes);
          return Err(DescriptorChainTooShort), k;
        }
        var usable := CheckDescs(chain, true);
        if !usable {
          CompletedAll(queue.avail, next, k, true, tap, limited, used, queue.used,
                       frames, counterFrames, bytes, counterBytes);
          return Err(DescriptorChainInvalid), k;
        }
        OneMoreUnlessBlocked(queue.avail, next, i, true, tap, limited, used, queue.used,
                             frames, counterFrames, bytes, counterBytes);
        if !tap[i].Transferred? {
          exhaustedDescs := false;
          queue.nextAvail := queue.nextAvail - 1;
          if tap[i].WouldBlock? {
            break;
          }
          CompletedAll(queue.avail, next, k, true, tap, limited, used, queue.used,
                       frames, counterFrames, bytes, counterBytes);
          return Err(ReadTap), k;
        }
        counterBytes := Wrap(counterBytes + (tap[i].n - VNET_HDR_LEN));
        counterFrames := Wrap(counterFrames + 1);
        rateLimitReached := limited[i];
        queue.AddUsed(chain.head, tap[i].n);
        i, k := i + 1, k + 1;
        if queue.nextAvail == |queue.avail| {
          // Enabling notifications found nothing new.
          break;
        }
      }
      CompletedAll(queue.avail, next, k, true, tap, limited, used, queue.used,
                   frames, counterFrames, bytes, counterBytes);
      StillInOrder(queue.avail, next, k, true, tap, limited, used, queue.used, frames, counterFrames, bytes,
                   counterBytes);
      return Ok(exhaustedDescs), k;
    }
  }

  /** A pair of queues on one tap device; the flags say whether its readiness is being watched. */
  class NetQueuePair {
    const rx: RxVirtio
    const tx: TxVirtio
    var rxTapListening: bool
    var txTapListening: bool
    var rxDescAvail: bool
    var txBytes: nat
    var txFrames: nat
    var rxBytes: nat
    var rxFrames: nat

    ghost predicate Valid()
      reads this, rx, tx
    {
      && tx.counterBytes < U64 && tx.counterFrames < U64 && rx.counterBytes < U64 && rx.counterFrames < U64
      && txBytes < U64 && txFrames < U64 && rxBytes < U64 && rxFrames < U64
    }

    constructor ()
      ensures Valid() && fresh(rx) && fresh(tx)
      ensures !rxTapListening && !txTapListening && txFrames == 0 && rxFrames == 0
    {
      rx := new RxVirtio();
      tx := new TxVirtio();
      rxTapListening, txTapListening, rxDescAvail := false, false, false;
      txBytes, txFrames, rxBytes, rxFrames := 0, 0, 0, 0;
    }

    /**
     * `process_tx`: the tap is watched for being writable exactly when the last write was refused, and
     * the counters grow by what was sent.
     */
    method ProcessTx(queue: Queue, tap: seq<TapResult>, limited: seq<bool>) returns (r: NetResult<()>, ghost k: nat)
      requires Valid() && queue.Valid()
      requires |queue.avail| - queue.nextAvail <= |tap| && |queue.avail| - queue.nextAvail <= |limited|
      modifies this`txTapListening, this`txBytes, this`txFrames, tx, queue`nextAvail, queue`used
      ensures Valid() && queue.Valid()
      ensures r.Err? <==> Fails(queue.avail, old(queue.nextAvail), false, tap, limited)
      ensures k == Taken(queue.avail, old(queue.nextAvail), false, tap, limited, 0)
      ensures r.Err? ==>
                && old(queue.nextAvail) + k < |queue.avail|
                && queue.nextAvail == old(queue.nextAvail) + k + 1
      ensures r.Err? ==> Completed(queue.avail, old(queue.nextAvail), k, false, tap, limited, old(queue.used),
                                   queue.used,
                                   old(tx.counterFrames), tx.counterFrames, old(tx.counterBytes), tx.counterBytes)
      ensures r.Ok? ==>
                && queue.nextAvail == old(queue.nextAvail) + k && k <= |tap| && tx.counterFrames == tx.counterBytes == 0
                && (txTapListening <==> k < |tap| && queue.nextAvail < |queue.avail| && tap[k] == WouldBlock
                                        && queue.avail[queue.nextAvail].descs != [] && !(k > 0 && limited[k - 1]))
                && Completed(queue.avail, old(queue.nextAvail), k, false, tap, limited, old(queue.used), queue.used,
                             old(txFrames + tx.counterFrames), txFrames, old(txBytes + tx.counterBytes), txBytes)
      ensures r.Ok? && old(queue.InOrder()) ==> queue.InOrder()
    {
      hide Wrap, Completed, UsedEntries;
      var sent;
      sent, k := tx.ProcessDescChain(queue, tap, limited);
      if sent.Err? {
        return Err(sent.error), k;
      }
      var txTapRetry := sent.value;
      if txTapRetry && !txTapListening {
        txTapListening := true;
      } else if !txTapRetry && txTapListening {
        txTapListening := false;
      }
      CountersAdded(queue.avail, old(queue.nextAvail), k, false, tap, limited, old(queue.used), queue.used,
                    txFrames, old(tx.counterFrames), tx.counterFrames, txBytes, old(tx.counterBytes), tx.counterBytes);
      txBytes := Wrap(txBytes + tx.counterBytes);
      txFrames := Wrap(txFrames + tx.counterFrames);
      tx.counterBytes, tx.counterFrames := 0, 0;
      return Ok(()), k;
    }

    /** `process_rx`: the tap stays watched only while there are chains to fill and no limit is reached. */
    method ProcessRx(queue: Queue, tap: seq<TapResult>, limited: seq<bool>, blocked: bool)
      returns (r: NetResult<()>, ghost k: nat)
      requires Valid() && queue.Valid()
      requires |queue.avail| - queue.nextAvail <= |tap| && |queue.avail| - queue.nextAvail <= |limited|
      modifies this`rxTapListening, this`rxDescAvail, this`rxBytes, this`rxFrames, rx, queue`nextAvail, queue`used
      ensures Valid() && queue.Valid()
      ensures r.Err? <==> Fails(queue.avail, old(queue.nextAvail), true, tap, limited)
      ensures k == Taken(queue.avail, old(queue.nextAvail), true, tap, limited, 0)
      ensures r.Err? ==>
                && old(queue.nextAvail) + k < |queue.avail|
                && queue.nextAvail == old(queue.nextAvail) + k + Lost(queue.avail[old(queue.nextAvail) + k])
      ensures r.Err? ==> Completed(queue.avail, old(queue.nextAvail), k, true, tap, limited, old(queue.used),
                                   queue.used,
                                   old(rx.counterFrames), rx.counterFrames, old(rx.counterBytes), rx.counterBytes)
      ensures r.Ok? ==>
                && queue.nextAvail == old(queue.nextAvail) + k && k <= |tap| && rx.counterFrames == rx.counterBytes == 0
                && (rxDescAvail <==> queue.nextAvail < |queue.avail|)
                && (rxTapListening <==> old(rxTapListening) && rxDescAvail && !blocked)
                && Completed(queue.avail, old(queue.nextAvail), k, true, tap, limited, old(queue.used), queue.used,
                             old(rxFrames + rx.counterFrames), rxFrames, old(rxBytes + rx.counterBytes), rxBytes)
      ensures r.Ok? && old(queue.InOrder()) ==> queue.InOrder()
    {
      hide Wrap, Completed, UsedEntries;
      var received;
      received, k := rx.ProcessDescChain(queue, tap, limited);
      if received.Err? {
        return Err(received.error), k;
      }
      rxDescAvail := !received.value;
      if rxTapListening && (!rxDescAvail || blocked) {
        rxTapListening := false;
      }
      CountersAdded(queue.avail, old(queue.nextAvail), k, true, tap, limited, old(queue.used), queue.used,
                    rxFrames, old(rx.counterFrames), rx.counterFrames, rxBytes, old(rx.counterBytes), rx.counterBytes);
      rxBytes := Wrap(rxBytes + rx.counterBytes);
      rxFrames := Wrap(rxFrames + rx.counterFrames);
      rx.counterBytes, rx.counterFrames := 0, 0;
      return Ok(()), k;
    }
  }

  /** The counters of a direction add up to what the used ring says, over the whole life of the queue. */
  ghost predicate Accounted(avail: seq<Chain>, next: nat, used: seq<(nat, nat)>, frames: nat, bytes: nat) {
    && next <= |avail| && |used| == next
    && frames == Wrap(Frames(avail[..next]))
    && bytes == Wrap(Payload(avail[..next], used))
  }

  lemma {:induction false} FramesJoin(cs: seq<Chain>, more: seq<Chain>)
    ensures Frames(cs + more) == Frames(cs) + Frames(more)
    decreases |more|
  {
    if more == [] {
      assert cs + more == cs;
    } else {
      var n := |more| - 1;
      assert (cs + more)[..|cs| + n] == cs + more[..n];
      FramesJoin(cs, more[..n]);
    }
  }

  lemma {:induction false} PayloadJoin(cs: seq<Chain>, u: seq<(nat, nat)>, more: seq<Chain>, v: seq<(nat, nat)>)
    requires |cs| == |u| && |more| == |v|
    ensures Payload(cs + more, u + v) == Payload(cs, u) + Payload(more, v)
    decreases |more|
  {
    if more == [] {
      assert cs + more == cs && u + v == u;
    } else {
      var n := |more| - 1;
      assert (cs + more)[..|cs| + n] == cs + more[..n];
      assert (u + v)[..|cs| + n] == u + v[..n];
      PayloadJoin(cs, u, more[..n], v[..n]);
    }
  }

  lemma StillAccounted(avail: seq<Chain>, next: nat, k: nat, writeOnly: bool, tap: seq<TapResult>, limited: seq<bool>,
                       used: seq<(nat, nat)>, used': seq<(nat, nat)>, frames: nat, frames': nat, bytes: nat,
                       bytes': nat)
    requires Accounted(avail, next, used, frames, bytes)
    requires Completed(avail, next, k, writeOnly, tap, limited, used, used', frames, frames', bytes, bytes')
    ensures Accounted(avail, next + k, used', frames', bytes')
  {
    hide Wrap, Frames, Payload, Usable;
    var cs, more := avail[..next], avail[next..next + k];
    assert cs + more == avail[..next + k];
    FramesJoin(cs, more);
    PayloadJoin(cs, used, more, UsedEntries(more, tap));
    ModAdd(Frames(cs), Frames(more));
    ModAdd(Payload(cs, used), Payload(more, UsedEntries(more, tap)));
  }

  /** What happens around one call: the driver adds chains, then the tap and the limiter answer. */
  datatype Round = Round(added: seq<Chain>, tap: seq<TapResult>, limited: seq<bool>, blocked: bool)

  predicate Enough(r: Round, n: nat) {
    n <= |r.tap| && n <= |r.limited|
  }

  /**
   * Any number of calls on one transmit queue, until one fails: everything taken has been handed back in
   * order and once, and the counters are those of the whole history.
   */
  method TransmitAll(pair: NetQueuePair, queue: Queue, rounds: seq<Round>) returns (r: NetResult<()>, ghost at: nat)
    requires pair.Valid() && queue.InOrder() && pair.tx.counterFrames == pair.tx.counterBytes == 0
    requires Accounted(queue.avail, queue.nextAvail, queue.used, pair.txFrames, pair.txBytes)
    requires forall i :: 0 <= i < |rounds| ==> Enough(rounds[i], |queue.avail| + Total(rounds))
    modifies pair, pair.tx, queue
    ensures r.Err? <==>
            (exists i :: 0 <= i < |rounds| &&
                         RoundFails(old(queue.avail), old(queue.nextAvail), false, rounds, i))
    ensures r.Err? ==>
              && at < |rounds| && RoundFails(old(queue.avail), old(queue.nextAvail), false, rounds, at)
              && (forall i :: 0 <= i < at ==> !RoundFails(old(queue.avail), old(queue.nextAvail), false, rounds, i))
              && queue.avail == old(queue.avail) + Added(rounds[..at + 1])
              && var before := NextAfter(old(queue.avail), old(queue.nextAvail), false, rounds[..at]);
                 var stop := before + Taken(queue.avail, before, false, rounds[at].tap, rounds[at].limited, 0);
                 stop < |queue.avail| && queue.nextAvail == stop + 1
    ensures r.Ok? ==> queue.nextAvail == NextAfter(old(queue.avail), old(queue.nextAvail), false, rounds)
    ensures r.Ok? ==>
              && pair.Valid() && queue.InOrder() && queue.avail == old(queue.avail) + Added(rounds)
              && Accounted(queue.avail, queue.nextAvail, queue.used, pair.txFrames, pair.txBytes)
  {
    hide Accounted, Completed, Fails, Taken, NextAfter, Added, UsedEntries;
    NoRounds(queue.avail, queue.nextAvail, false, rounds);
    for i := 0 to |rounds|
      invariant pair.Valid() && queue.InOrder() && queue.avail == old(queue.avail) + Added(rounds[..i])
      invariant queue.nextAvail == NextAfter(old(queue.avail), old(queue.nextAvail), false, rounds[..i])
      invariant forall j :: 0 <= j < i ==> !RoundFails(old(queue.avail), old(queue.nextAvail), false, rounds, j)
      invariant pair.tx.counterFrames == pair.tx.counterBytes == 0
      invariant Accounted(queue.avail, queue.nextAvail, queue.used, pair.txFrames, pair.txBytes)
    {
      AddedMore(rounds, i);
      AccountedAnyway(queue.avail, rounds[i].added, queue.nextAvail, queue.used, pair.txFrames, pair.txBytes);
      queue.MakeAvailable(rounds[i].added);
      assert queue.avail == old(queue.avail) + Added(rounds[..i + 1]);
      ghost var next, used, frames, bytes := queue.nextAvail, queue.used, pair.txFrames, pair.txBytes;
      ghost var k;
      r, k := pair.ProcessTx(queue, rounds[i].tap, rounds[i].limited);
      RoundStep(old(queue.avail), old(queue.nextAvail), false, rounds, i);
      if r.Err? {
        assert RoundFails(old(queue.avail), old(queue.nextAvail), false, rounds, i);
        at := i;
        return;
      }
      StillAccounted(queue.avail, next, k, false, rounds[i].tap, rounds[i].limited, used, queue.used,
                     frames, pair.txFrames, bytes, pair.txBytes);
    }
    assert rounds[..|rounds|] == rounds;
    r, at := Ok(()), |rounds|;
  }

  /** The same for the receive queue. */
  method ReceiveAll(pair: NetQueuePair, queue: Queue, rounds: seq<Round>) returns (r: NetResult<()>, ghost at: nat)
    requires pair.Valid() && queue.InOrder() && pair.rx.counterFrames == pair.rx.counterBytes == 0
    requires Accounted(queue.avail, queue.nextAvail, queue.used, pair.rxFrames, pair.rxBytes)
    requires forall i :: 0 <= i < |rounds| ==> Enough(rounds[i], |queue.avail| + Total(rounds))
    modifies pair, pair.rx, queue
    ensures r.Err? <==>
            (exists i :: 0 <= i < |rounds| &&
                         RoundFails(old(queue.avail), old(queue.nextAvail), true, rounds, i))
    ensures r.Err? ==>
              && at < |rounds| && RoundFails(old(queue.avail), old(queue.nextAvail), true, rounds, at)
              && (forall i :: 0 <= i < at ==> !RoundFails(old(queue.avail), old(queue.nextAvail), true, rounds, i))
              && queue.avail == old(queue.avail) + Added(rounds[..at + 1])
              && var before := NextAfter(old(queue.avail), old(queue.nextAvail), true, rounds[..at]);
                 var stop := before + Taken(queue.avail, before, true, rounds[at].tap, rounds[at].limited, 0);
                 stop < |queue.avail| && queue.nextAvail == stop + Lost(queue.avail[stop])
    ensures r.Ok? ==> queue.nextAvail == NextAfter(old(queue.avail), old(queue.nextAvail), true, rounds)
    ensures r.Ok? ==>
              && pair.Valid() && queue.InOrder() && queue.avail == old(queue.avail) + Added(rounds)
              && Accounted(queue.avail, queue.nextAvail, queue.used, pair.rxFrames, pair.rxBytes)
  {
    hide Accounted, Completed, Fails, Taken, NextAfter, Added, UsedEntries;
    NoRounds(queue.avail, queue.nextAvail, true, rounds);
    for i := 0 to |rounds|
      invariant pair.Valid() && queue.InOrder() && queue.avail == old(queue.avail) + Added(rounds[..i])
      invariant queue.nextAvail == NextAfter(old(queue.avail), old(queue.nextAvail), true, rounds[..i])
      invariant forall j :: 0 <= j < i ==> !RoundFails(old(queue.avail), old(queue.nextAvail), true, rounds, j)
      invariant pair.rx.counterFrames == pair.rx.counterBytes == 0
      invariant Accounted(queue.avail, queue.nextAvail, queue.used, pair.rxFrames, pair.rxBytes)
    {
      AddedMore(rounds, i);
      AccountedAnyway(queue.avail, rounds[i].added, queue.nextAvail, queue.used, pair.rxFrames, pair.rxBytes);
      queue.MakeAvailable(rounds[i].added);
      assert queue.avail == old(queue.avail) + Added(rounds[..i + 1]);
      ghost var next, used, frames, bytes := queue.nextAvail, queue.used, pair.rxFrames, pair.rxBytes;
      ghost var k;
      r, k := pair.ProcessRx(queue, rounds[i].tap, rounds[i].limited, rounds[i].blocked);
      RoundStep(old(queue.avail), old(queue.nextAvail), true, rounds, i);
      if r.Err? {
        assert RoundFails(old(queue.avail), old(queue.nextAvail), true, rounds, i);
        at := i;
        return;
      }
      StillAccounted(queue.avail, next, k, true, rounds[i].tap, rounds[i].limited, used, queue.used,
                     frames, pair.rxFrames, bytes, pair.rxBytes);
    }
    assert rounds[..|rounds|] == rounds;
    r, at := Ok(()), |rounds|;
  }

  /** Where the next chain to take is after these rounds, all of them successful. */
  function NextAfter(avail: seq<Chain>, next: nat, rx: bool, rounds: seq<Round>): nat {
    if rounds == [] then next else
    var n := |rounds| - 1;
    var before := NextAfter(avail, next, rx, rounds[..n]);
    before + Taken(avail + Added(rounds), before, rx, rounds[n].tap, rounds[n].limited, 0)
  }

  /** The call of round `i` fails, given that those before succeeded. */
  predicate RoundFails(avail: seq<Chain>, next: nat, rx: bool, rounds: seq<Round>, i: nat)
    requires i < |rounds|
  {
    Fails(avail + Added(rounds[..i + 1]), NextAfter(avail, next, rx, rounds[..i]), rx, rounds[i].tap, rounds[i].limited)
  }

  lemma NoRounds(avail: seq<Chain>, next: nat, rx: bool, rounds: seq<Round>)
    ensures Added(rounds[..0]) == [] && NextAfter(avail, next, rx, rounds[..0]) == next
  {
  }

  lemma RoundStep(avail: seq<Chain>, next: nat, rx: bool, rounds: seq<Round>, i: nat)
    requires i < |rounds|
    ensures var before := NextAfter(avail, next, rx, rounds[..i]);
            NextAfter(avail, next, rx, rounds[..i + 1]) ==
            before + Taken(avail + Added(rounds[..i + 1]), before, rx, rounds[i].tap, rounds[i].limited, 0)
  {
    hide Taken;
    assert rounds[..i + 1][..i] == rounds[..i];
  }

  /** Everything the driver adds in these rounds. */
  function Added(rounds: seq<Round>): seq<Chain> {
    if rounds == [] then [] else Added(rounds[..|rounds| - 1]) + rounds[|rounds| - 1].added
  }

  function Total(rounds: seq<Round>): nat {
    |Added(rounds)|
  }

  lemma AddedMore(rounds: seq<Round>, i: nat)
    requires i < |rounds|
    ensures Added(rounds[..i + 1]) == Added(rounds[..i]) + rounds[i].added
    ensures |Added(rounds[..i + 1])| <= Total(rounds)
  {
    assert rounds[..i + 1][..i] == rounds[..i];
    AddedGrows(rounds, i + 1);
  }

  lemma {:induction false} AddedGrows(rounds: seq<Round>, i: nat)
    requires i <= |rounds|
    ensures |Added(rounds[..i])| <= |Added(rounds)|
    decreases |rounds|
  {
    if i == |rounds| {
      assert rounds[..i] == rounds;
    } else {
      assert rounds[..|rounds| - 1][..i] == rounds[..i];
      AddedGrows(rounds[..|rounds| - 1], i);
    }
  }

  lemma AccountedAnyway(avail: seq<Chain>, more: seq<Chain>, next: nat, used: seq<(nat, nat)>, frames: nat, bytes: nat)
    requires Accounted(avail, next, used, frames, bytes)
    ensures Accounted(avail + more, next, used, frames, bytes)
  {
    assert (avail + more)[..next] == avail[..next];
  }

  /** The counters of the calls so far are added to the totals. */
  lemma CountersAdded(avail: seq<Chain>, next: nat, k: nat, writeOnly: bool, tap: seq<TapResult>, limited: seq<bool>,
                      used: seq<(nat, nat)>, used': seq<(nat, nat)>,
                      total: nat, frames: nat, frames': nat, totalBytes: nat, bytes: nat, bytes': nat)
    requires Completed(avail, next, k, writeOnly, tap, limited, used, used', frames, frames', bytes, bytes')
    ensures k <= |tap|
    ensures Completed(avail, next, k, writeOnly, tap, limited, used, used',
                      total + frames, Wrap(total + frames'), totalBytes + bytes, Wrap(totalBytes + bytes'))
  {
    hide Wrap, Frames, Payload, Usable, UsedEntries;
    var cs := avail[next..next + k];
    ModAdd(frames + Frames(cs), total);
    ModAdd(bytes + Payload(cs, UsedEntries(cs, tap)), totalBytes);
  }
}
