/** Both parties of a dual execution together: what they agree on, and what the equality check means. */
module DeapTheorems {
  import opened Bytes
  import opened Parties
  import opened Ranges
  import opened DeapSpec
  import opened Deap

  datatype Joint = Joint(l: Party, f: Party)

  /** Calls the two parties make in concert; an assignment is made by whoever knows the value. */
  datatype Step =
    | Alloc(size: nat)
    | CallCircuit(size: nat)
    | MarkPublic(r: Range)
    | MarkLeader(r: Range)
    | MarkFollower(r: Range)
    | AssignPublic(r: Range, bytes: seq<byte>)
    | AssignBy(role: Role, r: Range, bytes: seq<byte>)
    | Commit(r: Range)
    | Decode(r: Range)
    | UseZk(l: Mem, f: Mem)

  /** Memory that is public is assigned by both; a private assignment is of the party's own input. */
  predicate Owned(m: Mem, r: Range, mark: Mark) {
    forall a: nat :: r.start <= a < r.end && In(r, a) ==> a in m.marks && m.marks[a] == mark
  }

  ghost predicate CanTake(j: Joint, s: Step) {
    match s
    case Alloc(_) => !j.l.desync && !j.f.desync
    case CallCircuit(_) => !j.l.desync && !j.f.desync
    case MarkPublic(r) => CanMark(j.l.mpc, r) && CanMark(j.f.mpc, r)
    case MarkLeader(r) => CanMark(j.l.mpc, r) && CanMark(j.f.mpc, r)
    case MarkFollower(r) => CanMark(j.l.mpc, r) && CanMark(j.f.mpc, r)
    case AssignPublic(r, bytes) =>
      CanAssign(j.l.mpc, r, bytes) && CanAssign(j.f.mpc, r, bytes) && Owned(j.l.mpc, r, Public) && Owned(j.f.mpc, r, Public)
    case AssignBy(role, r, bytes) =>
      if role.Leader? then CanAssign(j.l.mpc, r, bytes) && Owned(j.l.mpc, r, Private)
      else CanAssign(j.f.mpc, r, bytes) && Owned(j.f.mpc, r, Private)
    case Commit(r) => CanCommit(j.l.mpc, r) && CanCommit(j.f.mpc, r)
    case Decode(r) => r.end <= j.l.mpc.next && r.end <= j.f.mpc.next
    case UseZk(l, f) => OnlyBeyond(j.l, l) && OnlyBeyond(j.f, f)
  }

  ghost function Take(j: Joint, s: Step): Joint
    requires CanTake(j, s)
  {
    match s
    case Alloc(n) => Joint(j.l.(mpc := Allocated(j.l.mpc, n), zk := Allocated(j.l.zk, n)), j.f.(mpc := Allocated(j.f.mpc, n), zk := Allocated(j.f.zk, n)))
    case CallCircuit(n) => Joint(j.l.(mpc := Computed(j.l.mpc, n), zk := Computed(j.l.zk, n)), j.f.(mpc := Computed(j.f.mpc, n), zk := Computed(j.f.zk, n)))
    case MarkPublic(r) => Joint(MarkedBoth(j.l, r, Public), MarkedBoth(j.f, r, Public))
    case MarkLeader(r) => Joint(MarkedBoth(j.l, r, Private), MarkedBoth(j.f, r, Blind))
    case MarkFollower(r) => Joint(MarkedBoth(j.l, r, Blind), MarkedBoth(j.f, r, Private))
    case AssignPublic(r, bytes) => Joint(AssignedBoth(j.l, r, bytes), AssignedBoth(j.f, r, bytes))
    case AssignBy(role, r, bytes) => if role.Leader? then j.(l := AssignedBoth(j.l, r, bytes)) else j.(f := AssignedBoth(j.f, r, bytes))
    case Commit(r) => Joint(CommittedBoth(j.l, r), CommittedBoth(j.f, r))
    case Decode(r) => Joint(j.l.(outputs := j.l.outputs + [r]), j.f.(outputs := j.f.outputs + [r]))
    case UseZk(l, f) => Joint(j.l.(zk := l, desync := true), j.f.(zk := f, desync := true))
  }

  ghost function Run(j: Joint, steps: seq<Step>): Option<Joint>
    decreases |steps|
  {
    if steps == [] then Some(j)
    else if !CanTake(j, steps[0]) then None
    else Run(Take(j, steps[0]), steps[1..])
  }

  function Dual(m: Mark): Mark {
    match m
    case Private => Blind
    case Blind => Private
    case _ => m
  }

  /** At one address: complementary marks, equal commitments, equal public data. */
  predicate Agrees(j: Joint, a: nat) {
    && (a in j.f.mpc.marks <==> a in j.l.mpc.marks)
    && (a in j.l.mpc.marks ==> j.f.mpc.marks[a] == Dual(j.l.mpc.marks[a]))
    && (a in j.f.mpc.committed <==> a in j.l.mpc.committed)
    && (a in j.l.mpc.marks && j.l.mpc.marks[a].Public? ==>
          (a in j.f.mpc.data <==> a in j.l.mpc.data) && (a in j.l.mpc.data ==> j.f.mpc.data[a] == j.l.mpc.data[a]))
  }

  ghost predicate JointInv(j: Joint) {
    && j.l.role.Leader? && j.f.role.Follower? && DeapSpec.Inv(j.l) && DeapSpec.Inv(j.f)
    && j.l.mpc.next == j.f.mpc.next && j.l.outputs == j.f.outputs
    && forall a: nat :: Agrees(j, a)
  }

  lemma StartInv()
    ensures JointInv(Joint(Empty(Leader), Empty(Follower)))
  {
    forall a: nat
      ensures Contained(Empty(Leader), a) && Contained(Empty(Follower), a) && Agrees(Joint(Empty(Leader), Empty(Follower)), a)
    {
    }
  }

  lemma InvIgnoresOutputs(p: Party, outputs: seq<Range>)
    requires DeapSpec.Inv(p)
    ensures DeapSpec.Inv(p.(outputs := outputs))
  {
    hide Has;
    var q := p.(outputs := outputs);
    forall a: nat
      ensures Contained(q, a) && (a < q.mpc.next ==> Aligned(q, a))
    {
      assert Contained(p, a);
      if a < p.mpc.next {
        assert Aligned(p, a);
      }
    }
  }

  /** Each party's own invariant is kept. */
  lemma PartiesKeep(j: Joint, s: Step)
    requires DeapSpec.Inv(j.l) && DeapSpec.Inv(j.f) && CanTake(j, s)
    ensures DeapSpec.Inv(Take(j, s).l) && DeapSpec.Inv(Take(j, s).f)
  {
    hide DeapSpec.Inv, CanMark, CanAssign, CanCommit, Owned, OnlyBeyond, MarkedBoth, AssignedBoth, CommittedBoth, Allocated, Computed;
    match s
    case Alloc(n) => AllocKeeps(j.l, n); AllocKeeps(j.f, n);
    case CallCircuit(n) => AllocKeeps(j.l, n); AllocKeeps(j.f, n);
    case MarkPublic(r) => MarkKeeps(j.l, r, Public); MarkKeeps(j.f, r, Public);
    case MarkLeader(r) => MarkKeeps(j.l, r, Private); MarkKeeps(j.f, r, Blind);
    case MarkFollower(r) => MarkKeeps(j.l, r, Blind); MarkKeeps(j.f, r, Private);
    case AssignPublic(r, bytes) => AssignKeeps(j.l, r, bytes); AssignKeeps(j.f, r, bytes);
    case AssignBy(role, r, bytes) => if role.Leader? { AssignKeeps(j.l, r, bytes); } else { AssignKeeps(j.f, r, bytes); }
    case Commit(r) => CommitKeeps(j.l, r); CommitKeeps(j.f, r);
    case Decode(r) => InvIgnoresOutputs(j.l, j.l.outputs + [r]); InvIgnoresOutputs(j.f, j.f.outputs + [r]);
    case UseZk(l, f) => ZkKeeps(j.l, l); ZkKeeps(j.f, f);
  }

  // One address of the MPC memories after a step depends on that address alone.

  lemma MarkAgrees(j: Joint, s: Step, a: nat)
    requires Agrees(j, a) && CanTake(j, s) && j.l.mpc.next == j.f.mpc.next && Contained(j.l, a) && Contained(j.f, a)
    requires s.MarkPublic? || s.MarkLeader? || s.MarkFollower?
    ensures Agrees(Take(j, s), a)
  {
    hide Has, Union, OnlyBeyond;
  }

  lemma AssignAgrees(j: Joint, s: Step, a: nat)
    requires Agrees(j, a) && CanTake(j, s) && j.l.mpc.next == j.f.mpc.next && Contained(j.l, a) && Contained(j.f, a)
    requires s.AssignPublic? || s.AssignBy?
    ensures Agrees(Take(j, s), a)
  {
    hide Has, Union, OnlyBeyond, CanAssign, Assignable;
    match s
    case AssignPublic(r, bytes) =>
      CanAssignRange(j.l.mpc, r, bytes);
      AssignedAt(j.l.mpc, r, bytes, a);
      AssignedAt(j.f.mpc, r, bytes, a);
    case AssignBy(role, r, bytes) =>
      CanAssignRange(if role.Leader? then j.l.mpc else j.f.mpc, r, bytes);
      AssignedAt(if role.Leader? then j.l.mpc else j.f.mpc, r, bytes, a);
    case _ =>
  }

  lemma RestAgrees(j: Joint, s: Step, a: nat)
    requires Agrees(j, a) && CanTake(j, s) && j.l.mpc.next == j.f.mpc.next && Contained(j.l, a) && Contained(j.f, a)
    requires s.Alloc? || s.CallCircuit? || s.Commit? || s.Decode? || s.UseZk?
    ensures Agrees(Take(j, s), a)
  {
    hide Has, Union, OnlyBeyond;
  }

  lemma InvContains(p: Party, a: nat)
    requires DeapSpec.Inv(p)
    ensures Contained(p, a)
  {
  }

  lemma StepKeeps(j: Joint, s: Step)
    requires JointInv(j) && CanTake(j, s)
    ensures JointInv(Take(j, s))
  {
    hide DeapSpec.Inv, Agrees, CanMark, CanAssign, CanCommit, Owned, OnlyBeyond;
    PartiesKeep(j, s);
    forall a: nat
      ensures Agrees(Take(j, s), a)
    {
      InvContains(j.l, a);
      InvContains(j.f, a);
      match s
      case MarkPublic(_) => MarkAgrees(j, s, a);
      case MarkLeader(_) => MarkAgrees(j, s, a);
      case MarkFollower(_) => MarkAgrees(j, s, a);
      case AssignPublic(_, _) => AssignAgrees(j, s, a);
      case AssignBy(_, _, _) => AssignAgrees(j, s, a);
      case _ => RestAgrees(j, s, a);
    }
  }

  lemma {:induction false} RunKeeps(j: Joint, steps: seq<Step>)
    requires JointInv(j) && Run(j, steps).Some?
    ensures JointInv(Run(j, steps).value)
    decreases |steps|
  {
    hide JointInv, CanTake, Take;
    if steps != [] {
      StepKeeps(j, steps[0]);
      RunKeeps(Take(j, steps[0]), steps[1..]);
    }
  }

  // ---- Before finalize ----

  /** Both parties hold the same set of follower inputs, and none of it is committed in either zero-knowledge VM. */
  lemma FollowerInputsAgree(steps: seq<Step>)
    requires Run(Joint(Empty(Leader), Empty(Follower)), steps).Some?
    ensures var j := Run(Joint(Empty(Leader), Empty(Follower)), steps).value;
      && j.l.followerInputs == j.f.followerInputs
      && forall a: nat :: Has(j.l.followerInputs, a) ==> a !in j.l.zk.committed && a !in j.f.zk.committed
  {
    StartInv();
    RunKeeps(Joint(Empty(Leader), Empty(Follower)), steps);
    SameInputs(Run(Joint(Empty(Leader), Empty(Follower)), steps).value);
  }

  lemma SameInputs(j: Joint)
    requires JointInv(j)
    ensures j.l.followerInputs == j.f.followerInputs
    ensures forall a: nat :: Has(j.l.followerInputs, a) ==> a < j.l.mpc.next && a !in j.l.zk.committed && a !in j.f.zk.committed
  {
    hide Has;
    forall a: nat
      ensures Has(j.l.followerInputs, a) <==> Has(j.f.followerInputs, a)
      ensures Has(j.l.followerInputs, a) ==> a < j.l.mpc.next && a !in j.l.zk.committed && a !in j.f.zk.committed
    {
      assert Contained(j.l, a) && Contained(j.f, a) && Agrees(j, a);
      if a < j.l.mpc.next {
        assert Aligned(j.l, a) && Aligned(j.f, a);
      }
    }
    Canonical(j.l.followerInputs, j.f.followerInputs);
  }

  // ---- Finalize ----

  /** The value the MPC VM computes on for a committed input: its owner's. */
  function MpcInput(j: Joint, a: nat): Option<byte> {
    if a !in j.l.mpc.committed || a !in j.l.mpc.marks then None
    else if j.l.mpc.marks[a].Blind? then (if a in j.f.mpc.data then Some(j.f.mpc.data[a]) else None)
    else if a in j.l.mpc.data then Some(j.l.mpc.data[a])
    else None
  }

  /** The value the zero-knowledge VM proves about: the prover's, for what both have committed. */
  function ZkInput(l: Mem, f: Mem, a: nat): Option<byte> {
    if a in l.committed && a in f.committed && a in l.data then Some(l.data[a]) else None
  }

  /** What the verifier was told or assigned itself is what the prover uses. */
  ghost predicate PublicsMatch(l: Mem, f: Mem, a: nat) {
    a in f.committed && a in f.marks && f.marks[a].Public? ==> a in f.data && a in l.data && f.data[a] == l.data[a]
  }

  ghost predicate AllCommitted(j: Joint) {
    forall a: nat :: Has(j.l.followerInputs, a) ==> a in j.l.mpc.committed
  }

  /** The decoding of inputs is authenticated: it yields exactly what was committed. */
  function Authentic(j: Joint): nat -> Option<byte> {
    (a: nat) => MpcInput(j, a)
  }

  /** Revealing succeeds for both parties exactly when every follower input was committed. */
  lemma RevealWhen(j: Joint)
    requires JointInv(j)
    ensures CanReveal(j.l, Authentic(j)) && CanReveal(j.f, Authentic(j)) <==> AllCommitted(j)
  {
    hide Has;
    SameInputs(j);
    forall a: nat | Has(j.l.followerInputs, a)
      ensures a in j.l.mpc.committed <==> MpcInput(j, a).Some?
      ensures a in j.l.mpc.committed ==> a in j.f.zk.data
      ensures a < End(j.l.followerInputs)
    {
      HasBelowEnd(j.l.followerInputs, a);
      assert Contained(j.l, a) && Contained(j.f, a) && Aligned(j.l, a) && Aligned(j.f, a) && Agrees(j, a);
    }
  }

  /**
   * After both have revealed, the two machines have the same inputs at every shared address:
   * each follower input is committed with the value decoded for that very address.
   */
  lemma InputsAgree(j: Joint, a: nat)
    requires JointInv(j) && AllCommitted(j) && a < j.l.mpc.next
    requires CanReveal(j.l, Authentic(j)) && CanReveal(j.f, Authentic(j))
    ensures var l, f := Revealed(j.l, Authentic(j)), Revealed(j.f, Authentic(j));
      && ZkInput(l, f, a) == MpcInput(j, a)
      && PublicsMatch(l, f, a)
      && (a in l.committed <==> a in j.l.mpc.committed) && (a in f.committed <==> a in j.f.mpc.committed)
  {
    hide Has;
    SameInputs(j);
    assert Contained(j.l, a) && Contained(j.f, a) && Aligned(j.l, a) && Aligned(j.f, a) && Agrees(j, a);
    if Has(j.l.followerInputs, a) {
      HasBelowEnd(j.l.followerInputs, a);
    }
  }

  // ---- The equality check ----

  /** What a range of results evaluates to, as a function of the inputs below an address. */
  type Evaluation = (nat -> Option<byte>, nat, Range) -> Option<seq<byte>>

  /** An evaluation reads only the shared inputs. */
  ghost predicate ReadsBelow(eval: Evaluation) {
    forall x: nat -> Option<byte>, y: nat -> Option<byte>, n: nat, r: Range ::
      (forall a: nat :: a < n ==> x(a) == y(a)) ==> eval(x, n, r) == eval(y, n, r)
  }

  function ZkInputs(l: Mem, f: Mem): nat -> Option<byte> {
    (a: nat) => ZkInput(l, f, a)
  }

  /** An honest leader: what the follower's MPC VM has, if anything, is the true evaluation. */
  ghost predicate HonestOutputs(j: Joint, eval: Evaluation, mpcOut: Range -> Option<seq<byte>>) {
    forall r: Range :: mpcOut(r).Some? ==> mpcOut(r) == eval(Authentic(j), j.l.mpc.next, r)
  }

  ghost predicate Passes(outputs: seq<Range>, mpcOut: Range -> Option<seq<byte>>, zkOut: Range -> Option<seq<byte>>) {
    forall i :: 0 <= i < |outputs| ==> mpcOut(outputs[i]).Some? ==> zkOut(outputs[i]) == mpcOut(outputs[i])
  }

  /** With an honest leader the follower's check always passes. */
  lemma HonestLeaderPasses(steps: seq<Step>, eval: Evaluation, mpcOut: Range -> Option<seq<byte>>)
    requires Run(Joint(Empty(Leader), Empty(Follower)), steps).Some?
    requires ReadsBelow(eval)
    requires var j := Run(Joint(Empty(Leader), Empty(Follower)), steps).value;
      AllCommitted(j) && HonestOutputs(j, eval, mpcOut)
    ensures var j := Run(Joint(Empty(Leader), Empty(Follower)), steps).value;
      && CanReveal(j.l, Authentic(j)) && CanReveal(j.f, Authentic(j))
      && var l, f := Revealed(j.l, Authentic(j)), Revealed(j.f, Authentic(j));
         Passes(j.f.outputs, mpcOut, r => eval(ZkInputs(l, f), j.l.mpc.next, r))
  {
    hide Revealed, MpcInput, ZkInput, JointInv, Run, AllCommitted;
    StartInv();
    RunKeeps(Joint(Empty(Leader), Empty(Follower)), steps);
    var j := Run(Joint(Empty(Leader), Empty(Follower)), steps).value;
    RevealWhen(j);
    var l, f := Revealed(j.l, Authentic(j)), Revealed(j.f, Authentic(j));
    var x, y := ZkInputs(l, f), Authentic(j);
    forall a: nat | a < j.l.mpc.next
      ensures x(a) == y(a)
    {
      InputsAgree(j, a);
    }
    forall i | 0 <= i < |j.f.outputs|
      ensures eval(x, j.l.mpc.next, j.f.outputs[i]) == eval(y, j.l.mpc.next, j.f.outputs[i])
    {
    }
  }

  /**
   * What a follower knows of the inputs of its MPC VM; `w` is what the leader chose for its own.
   * Nothing of the leader's state enters.
   */
  function FollowerKnows(p: Party, w: nat -> Option<byte>): nat -> Option<byte> {
    (a: nat) =>
      if a !in p.mpc.committed || a !in p.mpc.marks then None
      else if p.mpc.marks[a].Blind? then w(a)
      else if a in p.mpc.data then Some(p.mpc.data[a])
      else None
  }

  /** What the zero-knowledge VM proves about: the verifier's own memory, and the prover's choice where it is blind. */
  function Proven(zk: Mem, w: nat -> Option<byte>): nat -> Option<byte> {
    (a: nat) =>
      if a !in zk.committed || a !in zk.marks then None
      else if zk.marks[a].Blind? then w(a)
      else if a in zk.data then Some(zk.data[a])
      else None
  }

  lemma ProvenIsKnown(p: Party, decoded: nat -> Option<byte>, w: nat -> Option<byte>, a: nat)
    requires DeapSpec.Inv(p) && p.role.Follower? && a < p.mpc.next
    requires forall b: nat :: Has(p.followerInputs, b) ==> b in p.mpc.committed
    ensures Proven(Revealed(p, decoded), w)(a) == FollowerKnows(p, w)(a)
  {
    assert Aligned(p, a) && Contained(p, a);
    if Has(p.followerInputs, a) {
      HasBelowEnd(p.followerInputs, a);
    }
  }

  /**
   * Whatever the leader did: for any follower, any outputs `mpcOut` the leader made its MPC VM
   * show, and any values `w` the leader proved about as its own inputs, an output that passes is
   * the evaluation of the follower's own inputs, the public ones, and `w`.
   */
  lemma PassedOutputsAreProven(p: Party, decoded: nat -> Option<byte>, w: nat -> Option<byte>, eval: Evaluation,
                               mpcOut: Range -> Option<seq<byte>>, i: nat)
    requires DeapSpec.Inv(p) && p.role.Follower? && ReadsBelow(eval) && i < |p.outputs|
    requires forall b: nat :: Has(p.followerInputs, b) ==> b in p.mpc.committed
    requires Passes(p.outputs, mpcOut, r => eval(Proven(Revealed(p, decoded), w), p.mpc.next, r))
    ensures mpcOut(p.outputs[i]).Some? ==> mpcOut(p.outputs[i]) == eval(FollowerKnows(p, w), p.mpc.next, p.outputs[i])
  {
    hide Revealed, Proven, FollowerKnows, DeapSpec.Inv;
    var x, y := Proven(Revealed(p, decoded), w), FollowerKnows(p, w);
    forall a: nat | a < p.mpc.next
      ensures x(a) == y(a)
    {
      ProvenIsKnown(p, decoded, w, a);
    }
    assert eval(x, p.mpc.next, p.outputs[i]) == eval(y, p.mpc.next, p.outputs[i]);
  }

  /** When the leader proves about the inputs it committed in MPC, those are the inputs of the MPC VM. */
  lemma KnownIsAuthentic(j: Joint, a: nat)
    requires JointInv(j) && a < j.l.mpc.next
    ensures FollowerKnows(j.f, (b: nat) => if b in j.l.mpc.data then Some(j.l.mpc.data[b]) else None)(a) == Authentic(j)(a)
  {
    assert Agrees(j, a);
    InvContains(j.l, a);
    InvContains(j.f, a);
  }

  /** Over a joint run, with the leader's inputs the same in both machines: outputs that pass are the evaluation of what was committed in MPC. */
  lemma PassedOutputsAreTrue(steps: seq<Step>, eval: Evaluation, mpcOut: Range -> Option<seq<byte>>, i: nat)
    requires Run(Joint(Empty(Leader), Empty(Follower)), steps).Some? && ReadsBelow(eval)
    requires var j := Run(Joint(Empty(Leader), Empty(Follower)), steps).value;
      && AllCommitted(j) && CanReveal(j.l, Authentic(j)) && CanReveal(j.f, Authentic(j)) && i < |j.f.outputs|
      && var l, f := Revealed(j.l, Authentic(j)), Revealed(j.f, Authentic(j));
         Passes(j.f.outputs, mpcOut, r => eval(ZkInputs(l, f), j.l.mpc.next, r))
    ensures var j := Run(Joint(Empty(Leader), Empty(Follower)), steps).value;
      mpcOut(j.f.outputs[i]).Some? ==> mpcOut(j.f.outputs[i]) == eval(Authentic(j), j.l.mpc.next, j.f.outputs[i])
  {
    hide Revealed, MpcInput, ZkInput, JointInv, Run, AllCommitted;
    StartInv();
    RunKeeps(Joint(Empty(Leader), Empty(Follower)), steps);
    var j := Run(Joint(Empty(Leader), Empty(Follower)), steps).value;
    var l, f := Revealed(j.l, Authentic(j)), Revealed(j.f, Authentic(j));
    var x, y := ZkInputs(l, f), Authentic(j);
    forall a: nat | a < j.l.mpc.next
      ensures x(a) == y(a)
    {
      InputsAgree(j, a);
    }
    assert eval(x, j.l.mpc.next, j.f.outputs[i]) == eval(y, j.l.mpc.next, j.f.outputs[i]);
  }
}
