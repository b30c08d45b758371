/** One party's dual-execution machine as an object; each call is the step of `DeapSpec` it is named after. */
module Deap {
  import opened Bytes
  import opened Parties
  import opened Ranges
  import opened DeapSpec

  datatype DeapError = Desynchronized | Memory | NotDecoded | EqualityCheck

  /** The zero-knowledge memory once the follower's inputs have been revealed in it. */
  function Revealed(p: Party, decoded: nat -> Option<byte>): Mem
    requires p.role.Leader? ==> forall a: nat :: a < End(p.followerInputs) && Has(p.followerInputs, a) ==> decoded(a).Some?
  {
    p.zk.(committed := p.zk.committed + (set a: nat | a < End(p.followerInputs) && Has(p.followerInputs, a)),
          data := if p.role.Follower? then p.zk.data
                  else p.zk.data + (map a: nat | a < End(p.followerInputs) && Has(p.followerInputs, a) :: decoded(a).value))
  }

  /** The leader needs every follower input decoded, the follower needs to have assigned its own. */
  predicate CanReveal(p: Party, decoded: nat -> Option<byte>) {
    forall a: nat :: a < End(p.followerInputs) && Has(p.followerInputs, a) ==> if p.role.Leader? then decoded(a).Some? else a in p.zk.data
  }

  class Deap {
    const role: Role
    var mpc: Mem
    var zk: Mem
    var followerInputs: Idx
    var outputs: seq<Range>
    var desync: bool

    constructor (role: Role)
      ensures P() == Empty(role)
    {
      this.role := role;
      mpc, zk := Mem(0, map[], map[], {}), Mem(0, map[], map[], {});
      followerInputs, outputs, desync := [], [], false;
    }

    function P(): Party
      reads this
    {
      Party(role, mpc, zk, followerInputs, outputs, desync)
    }

    /** Direct access to the zero-knowledge VM; allocation in both is over from here on. */
    method AccessZk(zk': Mem)
      requires Inv(P()) && OnlyBeyond(P(), zk')
      modifies this
      ensures Inv(P()) && P() == old(P()).(zk := zk', desync := true)
    {
      ZkKeeps(P(), zk');
      zk, desync := zk', true;
    }

    method AllocRaw(size: nat) returns (r: Result<Range, DeapError>)
      requires Inv(P())
      modifies this
      ensures Inv(P()) && (r.Ok? <==> !desync)
      ensures P() == if r.Ok? then old(P()).(mpc := Allocated(old(mpc), size), zk := Allocated(old(zk), size)) else old(P())
      ensures r.Ok? ==> r.value == Range(old(mpc).next, mpc.next) == Range(old(zk).next, zk.next)
    {
      if desync { return Err(Desynchronized); }
      AllocKeeps(P(), size);
      var at := mpc.next;
      zk := Allocated(zk, size);
      mpc := Allocated(mpc, size);
      return Ok(Range(at, mpc.next));
    }

    method CallRaw(size: nat) returns (r: Result<Range, DeapError>)
      requires Inv(P())
      modifies this
      ensures Inv(P()) && (r.Ok? <==> !desync)
      ensures P() == if r.Ok? then old(P()).(mpc := Computed(old(mpc), size), zk := Computed(old(zk), size)) else old(P())
      ensures r.Ok? ==> r.value == Range(old(mpc).next, mpc.next) == Range(old(zk).next, zk.next)
    {
      if desync { return Err(Desynchronized); }
      AllocKeeps(P(), size);
      var at := mpc.next;
      zk := Computed(zk, size);
      mpc := Computed(mpc, size);
      return Ok(Range(at, mpc.next));
    }

    method MarkPublicRaw(r: Range) returns (res: Result<(), DeapError>)
      requires Inv(P())
      modifies this
      ensures res.Ok? <==> CanMark(old(mpc), r)
      ensures res.Ok? ==> Inv(P()) && P() == MarkedBoth(old(P()), r, Public)
    {
      hide CanMark, Inv, Union, Normal, Marked;
      SameChecks(P(), r, []);
      if CanMark(mpc, r) { MarkKeeps(P(), r, Public); }
      if !CanMark(zk, r) { return Err(Memory); }
      zk := Marked(zk, r, Public);
      if !CanMark(mpc, r) { return Err(Memory); }
      mpc := Marked(mpc, r, Public);
      return Ok(());
    }

    method MarkPrivateRaw(r: Range) returns (res: Result<(), DeapError>)
      requires Inv(P())
      modifies this
      ensures res.Ok? <==> CanMark(old(mpc), r)
      ensures res.Ok? ==> Inv(P()) && P() == MarkedBoth(old(P()), r, Private)
    {
      hide CanMark, Inv, Union, Normal, Marked;
      SameChecks(P(), r, []);
      if CanMark(mpc, r) { MarkKeeps(P(), r, Private); }
      if !CanMark(zk, r) || !CanMark(mpc, r) { return Err(Memory); }
      match role {
        case Leader =>
          zk := Marked(zk, r, Private);
          mpc := Marked(mpc, r, Private);
        case Follower =>
          // The follower's private inputs become public at the end.
          zk := Marked(zk, r, Public);
          mpc := Marked(mpc, r, Private);
          followerInputs := Union(followerInputs, Between(r.start, r.end));
      }
      return Ok(());
    }

    method MarkBlindRaw(r: Range) returns (res: Result<(), DeapError>)
      requires Inv(P())
      modifies this
      ensures res.Ok? <==> CanMark(old(mpc), r)
      ensures res.Ok? ==> Inv(P()) && P() == MarkedBoth(old(P()), r, Blind)
    {
      hide CanMark, Inv, Union, Normal, Marked;
      SameChecks(P(), r, []);
      if CanMark(mpc, r) { MarkKeeps(P(), r, Blind); }
      if !CanMark(zk, r) || !CanMark(mpc, r) { return Err(Memory); }
      if role.Leader? {
        zk := Marked(zk, r, Public);
        mpc := Marked(mpc, r, Blind);
        followerInputs := Union(followerInputs, Between(r.start, r.end));
      } else {
        zk := Marked(zk, r, Blind);
        mpc := Marked(mpc, r, Blind);
      }
      return Ok(());
    }

    method AssignRaw(r: Range, bytes: seq<byte>) returns (res: Result<(), DeapError>)
      requires Inv(P())
      modifies this
      ensures res.Ok? <==> CanAssign(old(mpc), r, bytes)
      ensures res.Ok? ==> Inv(P()) && P() == AssignedBoth(old(P()), r, bytes)
    {
      SameChecks(P(), r, bytes);
      if CanAssign(mpc, r, bytes) { AssignKeeps(P(), r, bytes); }
      if !CanAssign(zk, r, bytes) { return Err(Memory); }
      zk := Assigned(zk, r, bytes);
      if !CanAssign(mpc, r, bytes) { return Err(Memory); }
      mpc := Assigned(mpc, r, bytes);
      return Ok(());
    }

    /** Commits in the zero-knowledge VM range by range, skipping the follower's inputs. */
    method CommitRaw(r: Range) returns (res: Result<(), DeapError>)
      requires Inv(P())
      modifies this
      ensures res.Ok? <==> CanCommit(old(mpc), r)
      ensures res.Ok? ==> Inv(P()) && P() == CommittedBoth(old(P()), r)
    {
      hide Has, Difference, Inv, Normal;
      SameChecks(P(), r, []);
      if CanCommit(mpc, r) { CommitKeeps(P(), r); }
      var shared := Difference(Between(r.start, r.end), followerInputs);
      SharedIsKnown(P(), r, shared);
      NothingHas();
      ghost var zk0 := zk;
      for i := 0 to |shared|
        invariant mpc == old(mpc) && P() == old(P()).(zk := zk)
        invariant zk == zk0.(committed := zk.committed)
        invariant forall a: nat :: a in zk.committed <==> a in zk0.committed || Has(shared[..i], a)
      {
        forall a: nat
          ensures Has(shared[..i + 1], a) <==> Has(shared[..i], a) || In(shared[i], a)
          ensures In(shared[i], a) ==> Has(shared, a) && !Has(shared[..i], a)
        {
          RangeAfter(shared, i, a);
        }
        if !CanCommit(zk, shared[i]) { return Err(Memory); }
        zk := Committed(zk, DeapSpec.Addrs(shared[i]));
      }
      assert shared[..|shared|] == shared;
      assert zk.committed == zk0.committed + Known(old(P()), r);
      if !CanCommit(mpc, r) { return Err(Memory); }
      mpc := Committed(mpc, DeapSpec.Addrs(r));
      return Ok(());
    }

    method DecodeRaw(r: Range) returns (res: Result<(), DeapError>)
      requires Inv(P())
      modifies this
      ensures Inv(P()) && (res.Ok? <==> r.end <= old(mpc).next)
      ensures P() == if res.Ok? then old(P()).(outputs := old(outputs) + [r]) else old(P())
    {
      hide Has;
      if r.end > mpc.next { return Err(Memory); }
      ghost var p := P();
      outputs := outputs + [r];
      forall a: nat
        ensures Contained(P(), a) && (a < mpc.next ==> Aligned(P(), a))
      {
        assert Contained(p, a);
        if a < mpc.next {
          assert Aligned(p, a);
        }
      }
      return Ok(());
    }

    /**
     * First half of finalize: reveals the follower's inputs in the zero-knowledge VM. `decoded`
     * is what the MPC VM decodes them to once everything has been executed there.
     */
    method FinalizeInputs(decoded: nat -> Option<byte>) returns (res: Result<(), DeapError>)
      requires Inv(P())
      modifies this`zk
      ensures res.Ok? <==> CanReveal(old(P()), decoded)
      ensures res.Ok? ==> zk == Revealed(old(P()), decoded)
    {
      hide Has, Normal, Inv, RevealedAt;
      ghost var p := P();
      NothingRevealed(p, decoded);
      for i := 0 to |followerInputs|
        invariant zk == p.zk.(committed := zk.committed, data := zk.data)
        invariant forall a: nat :: RevealedAt(p, zk, decoded, followerInputs[..i], a)
        invariant forall a: nat :: Has(followerInputs[..i], a) ==> if role.Leader? then decoded(a).Some? else a in p.zk.data
      {
        var input := followerInputs[i];
        ghost var before := zk;
        CanRevealRange(p, before, decoded, i);
        if role.Leader? {
          if exists a: nat | input.start <= a < input.end && In(input, a) :: decoded(a).None? { return Err(NotDecoded); }
          var value := ValuesOf(decoded, input);
          if !CanAssign(zk, input, value) { return Err(Memory); }
          zk := Assigned(zk, input, value);
        }
        if !CanCommit(zk, input) { return Err(Memory); }
        zk := Committed(zk, DeapSpec.Addrs(input));
        RevealStep(p, before, zk, decoded, i, followerInputs[..i + 1]);
      }
      assert followerInputs[..|followerInputs|] == followerInputs;
      RevealedIs(p, zk, decoded);
      return Ok(());
    }

    /**
     * Second half, after the zero-knowledge VM has executed: the follower compares every output
     * the MPC VM made available with the zero-knowledge one.
     */
    method FinalizeOutputs(mpcOut: Range -> Option<seq<byte>>, zkOut: Range -> Option<seq<byte>>) returns (res: Result<(), DeapError>)
      modifies this`outputs
      ensures res.Ok? <==> role.Follower? ==> forall i :: 0 <= i < |old(outputs)| ==>
        mpcOut(old(outputs)[i]).Some? ==> zkOut(old(outputs)[i]) == mpcOut(old(outputs)[i])
    {
      if role.Leader? { return Ok(()); }
      var taken := outputs;
      outputs := [];
      for i := 0 to |taken|
        invariant forall j :: 0 <= j < i ==> mpcOut(taken[j]).Some? ==> zkOut(taken[j]) == mpcOut(taken[j])
      {
        var mpcOutput := mpcOut(taken[i]);
        if mpcOutput.Some? {
          var zkOutput := zkOut(taken[i]);
          if zkOutput.None? { return Err(NotDecoded); }
          if zkOutput.value != mpcOutput.value { return Err(EqualityCheck); }
        }
      }
      return Ok(());
    }
  }

  /** At one address: what revealing the given part of the follower's inputs leaves. */
  predicate RevealedAt(p: Party, zk: Mem, decoded: nat -> Option<byte>, part: seq<Range>, a: nat) {
    var byDecode := p.role.Leader? && Has(part, a);
    && (a in zk.committed <==> a in p.zk.committed || Has(part, a))
    && (a in zk.data <==> a in p.zk.data || byDecode)
    && (a in zk.data ==> if byDecode then Some(zk.data[a]) == decoded(a) else zk.data[a] == p.zk.data[a])
  }

  lemma NothingRevealed(p: Party, decoded: nat -> Option<byte>)
    ensures forall a: nat :: RevealedAt(p, p.zk, decoded, [], a) && !Has([], a)
  {
  }

  /** The next range is untouched, so it can be assigned and committed. */
  lemma CanRevealRange(p: Party, zk: Mem, decoded: nat -> Option<byte>, i: nat)
    requires Inv(p) && i < |p.followerInputs| && zk == p.zk.(committed := zk.committed, data := zk.data)
    requires forall a: nat :: RevealedAt(p, zk, decoded, p.followerInputs[..i], a)
    ensures var input := p.followerInputs[i];
      && input.start < input.end
      && (forall a: nat :: In(input, a) ==> Assignable(zk, a) && Has(p.followerInputs, a) && a < End(p.followerInputs))
      && (forall a: nat :: In(input, a) ==> (a in zk.data <==> a in p.zk.data))
  {
    hide Has;
    var input := p.followerInputs[i];
    RangeAfter(p.followerInputs, i, 0);
    forall a: nat | In(input, a)
      ensures Assignable(zk, a) && Has(p.followerInputs, a) && a < End(p.followerInputs)
      ensures a in zk.data <==> a in p.zk.data
    {
      RangeAfter(p.followerInputs, i, a);
      HasBelowEnd(p.followerInputs, a);
      assert Contained(p, a) && Aligned(p, a);
      assert RevealedAt(p, zk, decoded, p.followerInputs[..i], a);
    }
  }

  lemma RevealStep(p: Party, before: Mem, after: Mem, decoded: nat -> Option<byte>, i: nat, next: seq<Range>)
    requires i < |p.followerInputs| && next == p.followerInputs[..i + 1]
    requires forall a: nat :: RevealedAt(p, before, decoded, p.followerInputs[..i], a)
    requires var input := p.followerInputs[i];
      && (forall a: nat :: input.start <= a < input.end && In(input, a) && p.role.Leader? ==> decoded(a).Some?)
      && (forall a: nat :: In(input, a) ==> Assignable(before, a) && (a in before.data <==> a in p.zk.data))
      && input.start < input.end
      && var filled := if p.role.Leader? then Assigned(before, input, ValuesOf(decoded, input)) else before;
         CanCommit(filled, input) && after == Committed(filled, DeapSpec.Addrs(input))
    ensures forall a: nat :: RevealedAt(p, after, decoded, next, a)
    ensures forall a: nat :: Has(next, a) ==>
      Has(p.followerInputs[..i], a) || (if p.role.Leader? then decoded(a).Some? else a in p.zk.data)
  {
    hide Has, RevealedAt, CanCommit, Committed, Assigned, Assignable, Committable;
    var input, part := p.followerInputs[i], p.followerInputs[..i];
    forall a: nat
      ensures RevealedAt(p, after, decoded, next, a)
      ensures Has(next, a) ==> Has(part, a) || (if p.role.Leader? then decoded(a).Some? else a in p.zk.data)
    {
      RangeAfter(p.followerInputs, i, a);
      assert RevealedAt(p, before, decoded, part, a);
      FilledAt(p, before, after, decoded, input, a);
      RevealStepAt(p, before, after, decoded, input, part, next, a);
    }
  }

  /** One address of the memory in which a range has been filled, by the leader alone, and committed. */
  lemma FilledAt(p: Party, before: Mem, after: Mem, decoded: nat -> Option<byte>, input: Range, a: nat)
    requires input.start < input.end
    requires forall b: nat :: input.start <= b < input.end && In(input, b) && p.role.Leader? ==> decoded(b).Some?
    requires var filled := if p.role.Leader? then Assigned(before, input, ValuesOf(decoded, input)) else before;
      CanCommit(filled, input) && after == Committed(filled, DeapSpec.Addrs(input))
    requires In(input, a) ==> Assignable(before, a) && (a in before.data <==> a in p.zk.data)
    ensures a in after.committed <==> a in before.committed || In(input, a)
    ensures a in after.data <==> a in before.data || (p.role.Leader? && In(input, a))
    ensures a in after.data ==> if p.role.Leader? && In(input, a) then Some(after.data[a]) == decoded(a) else a in before.data && after.data[a] == before.data[a]
    ensures In(input, a) ==> if p.role.Leader? then decoded(a).Some? else a in p.zk.data
  {
    hide Assigned, Committable, Assignable, ValuesOf;
    var filled := if p.role.Leader? then Assigned(before, input, ValuesOf(decoded, input)) else before;
    if p.role.Leader? {
      AssignedAt(before, input, ValuesOf(decoded, input), a);
    }
    CommittedAt(filled, input, a);
    if In(input, a) {
      assert input.start <= a < input.end;
      NeedsData(filled, before, a);
    }
  }

  /** What is committed was blind or had data; assignable memory is not blind. */
  lemma NeedsData(m: Mem, before: Mem, a: nat)
    requires Committable(m, a) && Assignable(before, a) && m.marks == before.marks
    ensures a in m.data
  {
  }

  lemma RevealStepAt(p: Party, before: Mem, after: Mem, decoded: nat -> Option<byte>, input: Range, part: seq<Range>, next: seq<Range>, a: nat)
    requires RevealedAt(p, before, decoded, part, a)
    requires (Has(next, a) <==> Has(part, a) || In(input, a)) && (In(input, a) ==> !Has(part, a))
    requires a in after.committed <==> a in before.committed || In(input, a)
    requires a in after.data <==> a in before.data || (p.role.Leader? && In(input, a))
    requires a in after.data ==> if p.role.Leader? && In(input, a) then Some(after.data[a]) == decoded(a) else a in before.data && after.data[a] == before.data[a]
    ensures RevealedAt(p, after, decoded, next, a)
  {
    hide Has;
  }

  lemma RevealedIs(p: Party, zk: Mem, decoded: nat -> Option<byte>)
    requires zk == p.zk.(committed := zk.committed, data := zk.data)
    requires forall a: nat :: RevealedAt(p, zk, decoded, p.followerInputs, a)
    requires forall a: nat :: Has(p.followerInputs, a) ==> if p.role.Leader? then decoded(a).Some? else a in p.zk.data
    ensures CanReveal(p, decoded) && zk == Revealed(p, decoded)
  {
    hide Has;
    forall a: nat | Has(p.followerInputs, a)
      ensures a < End(p.followerInputs)
    {
      HasBelowEnd(p.followerInputs, a);
    }
    var target := Revealed(p, decoded);
    forall a: nat
      ensures a in zk.committed <==> a in target.committed
      ensures (a in zk.data <==> a in target.data) && (a in zk.data ==> zk.data[a] == target.data[a])
    {
      assert RevealedAt(p, zk, decoded, p.followerInputs, a);
    }
    assert zk.committed == target.committed;
    assert zk.data == target.data;
  }

  function ValuesOf(decoded: nat -> Option<byte>, r: Range): (bytes: seq<byte>)
    requires r.start <= r.end
    requires forall a: nat :: r.start <= a < r.end && In(r, a) ==> decoded(a).Some?
    ensures |bytes| == r.end - r.start
    ensures forall a: nat :: r.start <= a < r.end && In(r, a) ==> bytes[a - r.start] == decoded(a).value
  {
    seq(r.end - r.start, i requires 0 <= i < r.end - r.start =>
      assert In(r, r.start + i);
      decoded(r.start + i).value)
  }

  lemma NothingHas()
    ensures forall a: nat :: !Has([], a)
  {
  }

  lemma RangeAfter(idx: Idx, i: nat, a: nat)
    requires i < |idx|
    ensures Has(idx[..i + 1], a) <==> Has(idx[..i], a) || In(idx[i], a)
    ensures In(idx[i], a) ==> Has(idx, a) && !Has(idx[..i], a)
    ensures idx[i].start < idx[i].end
  {
    HasUpTo(idx, i);
  }

  lemma SharedIsKnown(p: Party, r: Range, shared: Idx)
    requires shared == Difference(Between(r.start, r.end), p.followerInputs)
    ensures forall a: nat :: Has(shared, a) <==> a in Known(p, r)
  {
    hide Has, Difference;
    forall a: nat
      ensures Has(shared, a) <==> a in Known(p, r)
    {
      DifferenceHas(Between(r.start, r.end), p.followerInputs, a);
      BetweenHas(r.start, r.end, a);
    }
  }
}
