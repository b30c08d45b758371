/**
 * Dual execution with asymmetric privacy, on values. Each party runs an MPC virtual machine and
 * a zero-knowledge one over the same addresses; the follower's private inputs reach the
 * zero-knowledge one only at the end.
 */
module DeapSpec {
  import opened Bytes
  import opened Parties
  import opened Ranges

  /** Who knows an input; `Output` is memory that a call computes. */
  datatype Mark = Public | Private | Blind | Output

  datatype Mem = Mem(next: nat, marks: map<nat, Mark>, data: map<nat, byte>, committed: set<nat>)

  // ---- One machine's memory ----

  function Addrs(r: Range): set<nat> {
    set a: nat | r.start <= a < r.end && In(r, a)
  }

  /** Memory is marked once, after it is allocated. */
  predicate CanMark(m: Mem, r: Range) {
    forall a: nat :: r.start <= a < r.end && In(r, a) ==> a < m.next && a !in m.marks
  }

  function Marked(m: Mem, r: Range, mark: Mark): Mem {
    m.(marks := m.marks + map a: nat | a in Addrs(r) :: mark)
  }

  predicate Assignable(m: Mem, a: nat) {
    a in m.marks && (m.marks[a].Public? || m.marks[a].Private?) && a !in m.committed
  }

  predicate CanAssign(m: Mem, r: Range, bytes: seq<byte>) {
    r.start + |bytes| == r.end && forall a: nat :: r.start <= a < r.end && In(r, a) ==> Assignable(m, a)
  }

  function Assigned(m: Mem, r: Range, bytes: seq<byte>): Mem
    requires r.start + |bytes| == r.end
  {
    m.(data := m.data + map a: nat | a in Addrs(r) :: bytes[a - r.start])
  }

  predicate Committable(m: Mem, a: nat) {
    a in m.marks && !m.marks[a].Output? && a !in m.committed && (m.marks[a].Blind? || a in m.data)
  }

  predicate CanCommit(m: Mem, r: Range) {
    forall a: nat :: r.start <= a < r.end && In(r, a) ==> Committable(m, a)
  }

  function Committed(m: Mem, addrs: set<nat>): Mem {
    m.(committed := m.committed + addrs)
  }

  function Allocated(m: Mem, size: nat): Mem {
    m.(next := m.next + size)
  }

  /** A call's results are allocated and belong to nobody's inputs. */
  function Computed(m: Mem, size: nat): Mem {
    Marked(m.(next := m.next + size), Range(m.next, m.next + size), Output)
  }

  /** One address after an assignment. */
  lemma AssignedAt(m: Mem, r: Range, bytes: seq<byte>, a: nat)
    requires r.start + |bytes| == r.end
    ensures var n := Assigned(m, r, bytes);
      && n.marks == m.marks && n.committed == m.committed
      && (In(r, a) ==> r.start <= a < r.end && a in n.data && n.data[a] == bytes[a - r.start])
      && (!In(r, a) ==> (a in n.data <==> a in m.data) && (a in m.data ==> n.data[a] == m.data[a]))
  {
  }

  lemma CanAssignRange(m: Mem, r: Range, bytes: seq<byte>)
    requires CanAssign(m, r, bytes)
    ensures r.start + |bytes| == r.end
  {
  }

  /** And after a commitment. */
  lemma CommittedAt(m: Mem, r: Range, a: nat)
    ensures a in Committed(m, Addrs(r)).committed <==> a in m.committed || In(r, a)
  {
  }

  // ---- One party ----

  datatype Party = Party(role: Role, mpc: Mem, zk: Mem, followerInputs: Idx, outputs: seq<Range>, desync: bool)

  function Empty(role: Role): Party {
    var m := Mem(0, map[], map[], {});
    Party(role, m, m, [], [], false)
  }

  /** How the follower's private inputs are marked in this party's MPC memory. */
  function HiddenMark(role: Role): Mark {
    if role.Leader? then Blind else Private
  }

  /** The marks a call of mark_public, mark_private or mark_blind sets in the two memories. */
  function ZkMark(role: Role, mark: Mark): Mark {
    if mark == HiddenMark(role) then Public else mark
  }

  function MarkedBoth(p: Party, r: Range, mark: Mark): Party {
    p.(mpc := Marked(p.mpc, r, mark), zk := Marked(p.zk, r, ZkMark(p.role, mark)),
       followerInputs := if mark == HiddenMark(p.role) then Union(p.followerInputs, Between(r.start, r.end)) else p.followerInputs)
  }

  function AssignedBoth(p: Party, r: Range, bytes: seq<byte>): Party
    requires r.start + |bytes| == r.end
  {
    p.(mpc := Assigned(p.mpc, r, bytes), zk := Assigned(p.zk, r, bytes))
  }

  /** The part of a range that is not the follower's private input. */
  function Known(p: Party, r: Range): set<nat> {
    set a: nat | a in Addrs(r) && !Has(p.followerInputs, a)
  }

  function CommittedBoth(p: Party, r: Range): Party {
    p.(mpc := Committed(p.mpc, Addrs(r)), zk := Committed(p.zk, Known(p, r)))
  }

  // ---- The calls, address by address ----

  /** Only the follower's private inputs are marked differently in the two memories: public in zero knowledge. */
  lemma MarksAt(p: Party, r: Range, a: nat)
    requires In(r, a)
    ensures var q := MarkedBoth(p, r, Public);
      && a in q.mpc.marks && q.mpc.marks[a] == Public && a in q.zk.marks && q.zk.marks[a] == Public
      && q.followerInputs == p.followerInputs
    ensures var q := MarkedBoth(p, r, Private);
      && a in q.mpc.marks && q.mpc.marks[a] == Private
      && a in q.zk.marks && q.zk.marks[a] == (if p.role.Follower? then Public else Private)
      && (p.role.Follower? ==> Has(q.followerInputs, a)) && (p.role.Leader? ==> q.followerInputs == p.followerInputs)
    ensures var q := MarkedBoth(p, r, Blind);
      && a in q.mpc.marks && q.mpc.marks[a] == Blind
      && a in q.zk.marks && q.zk.marks[a] == (if p.role.Leader? then Public else Blind)
      && (p.role.Leader? ==> Has(q.followerInputs, a)) && (p.role.Follower? ==> q.followerInputs == p.followerInputs)
  {
    hide Has;
    UnionHas(p.followerInputs, Between(r.start, r.end), a);
    BetweenHas(r.start, r.end, a);
  }

  /** Nothing else is marked or recorded. */
  lemma MarksElsewhere(p: Party, r: Range, mark: Mark, a: nat)
    requires !In(r, a)
    ensures var q := MarkedBoth(p, r, mark);
      && (a in q.mpc.marks <==> a in p.mpc.marks) && (a in p.mpc.marks ==> q.mpc.marks[a] == p.mpc.marks[a])
      && (a in q.zk.marks <==> a in p.zk.marks) && (a in p.zk.marks ==> q.zk.marks[a] == p.zk.marks[a])
      && (Has(q.followerInputs, a) <==> Has(p.followerInputs, a))
  {
    hide Has;
    UnionHas(p.followerInputs, Between(r.start, r.end), a);
    BetweenHas(r.start, r.end, a);
  }

  /** A commitment leaves out exactly the follower's inputs in zero knowledge; an assignment goes to both. */
  lemma CommitsAt(p: Party, r: Range, a: nat)
    ensures var q := CommittedBoth(p, r);
      && (a in q.mpc.committed <==> a in p.mpc.committed || In(r, a))
      && (a in q.zk.committed <==> a in p.zk.committed || (In(r, a) && !Has(p.followerInputs, a)))
  {
    hide Has;
  }

  lemma AssignsAt(p: Party, r: Range, bytes: seq<byte>, a: nat)
    requires r.start + |bytes| == r.end && In(r, a)
    ensures var q := AssignedBoth(p, r, bytes);
      a in q.mpc.data && a in q.zk.data && q.mpc.data[a] == q.zk.data[a] == bytes[a - r.start]
  {
  }

  /** What the zero-knowledge VM may do on its own: anything past the shared addresses. */
  ghost predicate OnlyBeyond(p: Party, zk: Mem) {
    && zk.next >= p.zk.next
    && forall a: nat :: a < p.mpc.next ==>
         && (a in zk.marks <==> a in p.zk.marks) && (a in zk.marks ==> zk.marks[a] == p.zk.marks[a])
         && (a in zk.data <==> a in p.zk.data) && (a in zk.data ==> zk.data[a] == p.zk.data[a])
         && (a in zk.committed <==> a in p.zk.committed)
  }

  /** At one shared address: same data; same marks and commitments unless it is a follower input. */
  predicate Aligned(p: Party, a: nat) {
    && (a in p.zk.data <==> a in p.mpc.data) && (a in p.mpc.data ==> p.zk.data[a] == p.mpc.data[a])
    && (a in p.zk.marks <==> a in p.mpc.marks)
    && (a in p.mpc.marks ==> p.zk.marks[a] == ZkMark(p.role, p.mpc.marks[a]))
    && (Has(p.followerInputs, a) <==> a in p.mpc.marks && p.mpc.marks[a] == HiddenMark(p.role))
    && (if Has(p.followerInputs, a) then a !in p.zk.committed else (a in p.zk.committed <==> a in p.mpc.committed))
  }

  /** Nothing of the MPC memory lies beyond what was allocated, and nothing is committed unmarked. */
  predicate Contained(p: Party, a: nat) {
    && (a in p.mpc.marks ==> a < p.mpc.next) && (a in p.mpc.data ==> a in p.mpc.marks) && (a in p.mpc.committed ==> a in p.mpc.marks)
    && (a in p.mpc.committed && !p.mpc.marks[a].Blind? ==> a in p.mpc.data)
    && (a in p.mpc.committed ==> !p.mpc.marks[a].Output?)
    && (Has(p.followerInputs, a) ==> a < p.mpc.next)
    // Before the memories part, the zero-knowledge VM has nothing of its own.
    && (!p.desync ==> (a in p.zk.marks ==> a < p.mpc.next) && (a in p.zk.data ==> a < p.mpc.next) && (a in p.zk.committed ==> a < p.mpc.next))
  }

  ghost predicate Inv(p: Party) {
    && (forall a: nat :: a < p.mpc.next ==> Aligned(p, a))
    && (forall a: nat :: Contained(p, a))
    && p.mpc.next <= p.zk.next && (!p.desync ==> p.zk.next == p.mpc.next)
  }

  /** So every check the MPC VM makes, the zero-knowledge VM makes with the same outcome. */
  lemma SameChecks(p: Party, r: Range, bytes: seq<byte>)
    requires Inv(p)
    ensures CanMark(p.mpc, r) ==> CanMark(p.zk, r)
    ensures CanAssign(p.mpc, r, bytes) ==> CanAssign(p.zk, r, bytes)
    ensures CanCommit(p.mpc, r) ==> forall a: nat :: a in Known(p, r) ==> Committable(p.zk, a)
  {
    hide Has;
    forall a: nat | In(r, a)
      ensures a < p.mpc.next && a !in p.mpc.marks ==> a < p.zk.next && a !in p.zk.marks
      ensures Assignable(p.mpc, a) ==> Assignable(p.zk, a)
      ensures Committable(p.mpc, a) && !Has(p.followerInputs, a) ==> Committable(p.zk, a)
    {
      assert Contained(p, a);
      if a < p.mpc.next {
        assert Aligned(p, a);
      }
    }
  }

  // ---- Every call keeps the invariant ----

  lemma MarkKeeps(p: Party, r: Range, mark: Mark)
    requires Inv(p) && CanMark(p.mpc, r) && !mark.Output?
    ensures Inv(MarkedBoth(p, r, mark))
  {
    hide Has, Union;
    var q := MarkedBoth(p, r, mark);
    forall a: nat
      ensures Contained(q, a) && (a < q.mpc.next ==> Aligned(q, a))
    {
      UnionHas(p.followerInputs, Between(r.start, r.end), a);
      BetweenHas(r.start, r.end, a);
      assert Contained(p, a);
      if a < p.mpc.next {
        assert Aligned(p, a);
      }
    }
  }

  lemma AssignKeeps(p: Party, r: Range, bytes: seq<byte>)
    requires Inv(p) && CanAssign(p.mpc, r, bytes)
    ensures Inv(AssignedBoth(p, r, bytes))
  {
    hide Has;
    var q := AssignedBoth(p, r, bytes);
    forall a: nat
      ensures Contained(q, a) && (a < q.mpc.next ==> Aligned(q, a))
    {
      assert Contained(p, a);
      if a < p.mpc.next {
        assert Aligned(p, a);
      }
    }
  }

  lemma CommitKeeps(p: Party, r: Range)
    requires Inv(p) && CanCommit(p.mpc, r)
    ensures Inv(CommittedBoth(p, r))
  {
    hide Has;
    var q := CommittedBoth(p, r);
    forall a: nat
      ensures Contained(q, a) && (a < q.mpc.next ==> Aligned(q, a))
    {
      assert Contained(p, a);
      if a < p.mpc.next {
        assert Aligned(p, a);
      }
    }
  }

  lemma AllocKeeps(p: Party, size: nat)
    requires Inv(p) && !p.desync
    ensures Inv(p.(mpc := Allocated(p.mpc, size), zk := Allocated(p.zk, size)))
    ensures Inv(p.(mpc := Computed(p.mpc, size), zk := Computed(p.zk, size)))
  {
    hide Has;
    var q, c := p.(mpc := Allocated(p.mpc, size), zk := Allocated(p.zk, size)), p.(mpc := Computed(p.mpc, size), zk := Computed(p.zk, size));
    forall a: nat
      ensures Contained(q, a) && (a < q.mpc.next ==> Aligned(q, a))
      ensures Contained(c, a) && (a < c.mpc.next ==> Aligned(c, a))
    {
      assert Contained(p, a);
      if a < p.mpc.next {
        assert Aligned(p, a);
      }
    }
  }

  lemma ZkKeeps(p: Party, zk: Mem)
    requires Inv(p) && OnlyBeyond(p, zk)
    ensures Inv(p.(zk := zk, desync := true))
  {
    hide Has;
    var q := p.(zk := zk, desync := true);
    forall a: nat
      ensures Contained(q, a) && (a < q.mpc.next ==> Aligned(q, a))
    {
      assert Contained(p, a);
      if a < p.mpc.next {
        assert Aligned(p, a);
      }
    }
  }
}
