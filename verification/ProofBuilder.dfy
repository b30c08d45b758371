/**
 * Selective disclosure: which committed ranges a transcript proof opens for what is to be
 * revealed. Only commitments that lie wholly inside the query may be opened.
 */
module ProofBuilder {
  import opened Bytes
  import opened Ranges
  import opened TranscriptRefs
  import opened PartialTranscripts

  datatype Kind = Encoding | Hash(alg: nat)

  /** A pair of indices, one for each direction. */
  datatype Pair = Pair(sent: Idx, recv: Idx) {
    function At(direction: Direction): Idx {
      match direction
      case Sent => sent
      case Received => recv
    }

    function With(direction: Direction, idx: Idx): Pair {
      match direction
      case Sent => this.(sent := Union(sent, idx))
      case Received => this.(recv := Union(recv, idx))
    }
  }

  // ---- The encoding tree ----

  datatype TreeError = OutOfBounds

  /** Committed leaves, in any order, and their union. */
  datatype EncodingTree = EncodingTree(leaves: seq<(Direction, Idx)>, committed: Pair) {
    ghost predicate Valid(t: Transcript) {
      && (forall i :: 0 <= i < |leaves| ==> leaves[i].1 != [] && InBounds(leaves[i].1, |DataOf(t, leaves[i].0)|))
      && (forall i, j :: 0 <= i < j < |leaves| ==> leaves[i] != leaves[j])
      && UnionOf(committed, leaves)
    }
  }

  predicate SomeLeaf(leaves: seq<(Direction, Idx)>, d: Direction, x: nat) {
    exists i :: 0 <= i < |leaves| && leaves[i].0 == d && Has(leaves[i].1, x)
  }

  ghost predicate UnionOf(p: Pair, leaves: seq<(Direction, Idx)>) {
    forall d: Direction, x: nat :: Has(p.At(d), x) <==> SomeLeaf(leaves, d, x)
  }

  lemma UnionOfNone()
    ensures UnionOf(Pair([], []), [])
  {
  }

  lemma UnionOfStep(p: Pair, leaves: seq<(Direction, Idx)>, d: Direction, idx: Idx)
    requires UnionOf(p, leaves)
    ensures UnionOf(p.With(d, idx), leaves + [(d, idx)])
  {
    hide Has, Union;
    var more := leaves + [(d, idx)];
    forall e: Direction, x: nat
      ensures Has(p.With(d, idx).At(e), x) <==> SomeLeaf(more, e, x)
    {
      UnionHas(p.At(d), idx, x);
      assert Has(p.At(e), x) <==> SomeLeaf(leaves, e, x);
      if SomeLeaf(leaves, e, x) {
        var i :| 0 <= i < |leaves| && leaves[i].0 == e && Has(leaves[i].1, x);
        assert more[i] == leaves[i];
      }
      if e == d && Has(idx, x) {
        assert more[|leaves|] == (d, idx);
      }
    }
  }

  /** Empty indices and repetitions are skipped; out of bounds is an error. */
  method NewTree(idxs: seq<(Direction, Idx)>, t: Transcript) returns (r: Result<EncodingTree, TreeError>)
    ensures r.Ok? <==> forall i :: 0 <= i < |idxs| ==> InBounds(idxs[i].1, |DataOf(t, idxs[i].0)|)
    ensures r.Ok? ==> r.value.Valid(t)
    ensures r.Ok? ==> forall d: Direction, x: nat :: SomeLeaf(r.value.leaves, d, x) <==> SomeLeaf(idxs, d, x)
  {
    hide Has, UnionOf;
    var leaves: seq<(Direction, Idx)>, committed := [], Pair([], []);
    UnionOfNone();
    for i := 0 to |idxs|
      invariant forall j :: 0 <= j < i ==> InBounds(idxs[j].1, |DataOf(t, idxs[j].0)|)
      invariant forall j :: 0 <= j < i && idxs[j].1 != [] ==> idxs[j] in leaves
      invariant forall j :: 0 <= j < |leaves| ==> leaves[j] in idxs
      invariant EncodingTree(leaves, committed).Valid(t)
    {
      var (direction, idx) := idxs[i];
      BoundsByEnd(idx, |DataOf(t, direction)|);
      if idx != [] {
        if End(idx) > |DataOf(t, direction)| { return Err(OutOfBounds); }
        if (direction, idx) !in leaves {
          UnionOfStep(committed, leaves, direction, idx);
          leaves := leaves + [(direction, idx)];
          committed := committed.With(direction, idx);
        }
      }
    }
    forall d: Direction, x: nat
      ensures SomeLeaf(leaves, d, x) <==> SomeLeaf(idxs, d, x)
    {
      SameLeaves(leaves, idxs, d, x);
    }
    return Ok(EncodingTree(leaves, committed));
  }

  lemma SameLeaves(leaves: seq<(Direction, Idx)>, idxs: seq<(Direction, Idx)>, d: Direction, x: nat)
    requires forall j :: 0 <= j < |idxs| && idxs[j].1 != [] ==> idxs[j] in leaves
    requires forall j :: 0 <= j < |leaves| ==> leaves[j] in idxs
    ensures SomeLeaf(leaves, d, x) <==> SomeLeaf(idxs, d, x)
  {
    if SomeLeaf(leaves, d, x) {
      var i :| 0 <= i < |leaves| && leaves[i].0 == d && Has(leaves[i].1, x);
      var j :| 0 <= j < |idxs| && idxs[j] == leaves[i];
    }
    if SomeLeaf(idxs, d, x) {
      var i :| 0 <= i < |idxs| && idxs[i].0 == d && Has(idxs[i].1, x);
      var j :| 0 <= j < |leaves| && leaves[j] == idxs[i];
    }
  }

  // ---- Covering a query ----

  function Only(leaves: seq<(Direction, Idx)>, d: Direction): (r: seq<Idx>)
    ensures forall idx :: idx in r ==> (d, idx) in leaves
    ensures forall i :: 0 <= i < |leaves| && leaves[i].0 == d ==> leaves[i].1 in r
  {
    if leaves == [] then []
    else (if leaves[0].0 == d then [leaves[0].1] else []) + Only(leaves[1..], d)
  }

  /** Some candidate inside the query holds the position. */
  predicate Coverable(query: Idx, candidates: seq<Idx>, x: nat) {
    exists i :: 0 <= i < |candidates| && Subset(candidates[i], query) && Has(candidates[i], x)
  }

  predicate AnyHas(chosen: seq<Idx>, x: nat) {
    exists i :: 0 <= i < |chosen| && Has(chosen[i], x)
  }

  function Gain(uncovered: Idx, candidate: Idx): nat {
    Len(Where((x: nat) => Has(candidate, x) && Has(uncovered, x), End(candidate)))
  }

  lemma GainMeets(uncovered: Idx, candidate: Idx, x: nat)
    requires Has(uncovered, x) && Has(candidate, x)
    ensures Gain(uncovered, candidate) > 0
  {
    hide Has;
    HasBelowEnd(candidate, x);
    WhereHas((y: nat) => Has(candidate, y) && Has(uncovered, y), End(candidate), x);
    NoneHas(x);
  }

  method BestOf(uncovered: Idx, pool: seq<Idx>) returns (best: Option<nat>)
    ensures best.None? ==> forall i :: 0 <= i < |pool| ==> Gain(uncovered, pool[i]) == 0
    ensures best.Some? ==> best.value < |pool| && Gain(uncovered, pool[best.value]) > 0
    ensures best.Some? ==> forall i :: 0 <= i < |pool| ==> Gain(uncovered, pool[i]) <= Gain(uncovered, pool[best.value])
  {
    hide Gain;
    best := None;
    for i := 0 to |pool|
      invariant best.None? ==> forall j :: 0 <= j < i ==> Gain(uncovered, pool[j]) == 0
      invariant best.Some? ==> best.value < i && Gain(uncovered, pool[best.value]) > 0
      invariant best.Some? ==> forall j :: 0 <= j < i ==> Gain(uncovered, pool[j]) <= Gain(uncovered, pool[best.value])
    {
      var gain := Gain(uncovered, pool[i]);
      if gain > 0 && (best.None? || gain > Gain(uncovered, pool[best.value])) {
        best := Some(i);
      }
    }
  }

  /** What is still uncovered, what was chosen and what is left to choose from, accounted for. */
  ghost predicate Accounts(query: Idx, pool: seq<Idx>, uncovered: Idx, chosen: seq<Idx>, rest: seq<Idx>) {
    && (forall i :: 0 <= i < |chosen| ==> chosen[i] in pool)
    && (forall i :: 0 <= i < |pool| ==> pool[i] in chosen || pool[i] in rest)
    && (forall i :: 0 <= i < |rest| ==> rest[i] in pool)
    && (forall x: nat :: Has(uncovered, x) <==> Has(query, x) && !AnyHas(chosen, x))
    && (chosen == [] ==> uncovered == query)
  }

  lemma AccountsStart(query: Idx, pool: seq<Idx>)
    ensures Accounts(query, pool, query, [], pool)
  {
  }

  lemma AccountsStep(query: Idx, pool: seq<Idx>, uncovered: Idx, chosen: seq<Idx>, rest: seq<Idx>, b: nat)
    requires Accounts(query, pool, uncovered, chosen, rest) && b < |rest|
    ensures Accounts(query, pool, Difference(uncovered, rest[b]), chosen + [rest[b]], rest[..b] + rest[b + 1..])
  {
    hide Has, Difference;
    var left, more := rest[..b] + rest[b + 1..], chosen + [rest[b]];
    forall i | 0 <= i < |pool|
      ensures pool[i] in more || pool[i] in left
    {
      if pool[i] in rest {
        var j :| 0 <= j < |rest| && rest[j] == pool[i];
        if j < b {
          assert left[j] == pool[i];
        } else if j > b {
          assert left[j - 1] == pool[i];
        } else {
          assert more[|chosen|] == pool[i];
        }
      }
    }
    forall x: nat
      ensures Has(Difference(uncovered, rest[b]), x) <==> Has(query, x) && !AnyHas(more, x)
    {
      DifferenceHas(uncovered, rest[b], x);
      AnyHasMore(chosen, rest[b], x);
    }
  }

  lemma AnyHasMore(chosen: seq<Idx>, idx: Idx, x: nat)
    ensures AnyHas(chosen + [idx], x) <==> AnyHas(chosen, x) || Has(idx, x)
  {
    hide Has;
    var more := chosen + [idx];
    if AnyHas(chosen, x) {
      var i :| 0 <= i < |chosen| && Has(chosen[i], x);
      assert Has(more[i], x);
    }
    if Has(idx, x) {
      assert more[|chosen|] == idx;
    }
  }

  /** What a covering achieves: exactly the coverable positions, with candidates inside the query. */
  ghost predicate Covers(query: Idx, candidates: seq<Idx>, chosen: seq<Idx>, uncovered: Idx) {
    && (forall i :: 0 <= i < |chosen| ==> chosen[i] in candidates && Subset(chosen[i], query))
    && (forall x: nat :: Has(uncovered, x) <==> Has(query, x) && !Coverable(query, candidates, x))
    && (forall x: nat :: AnyHas(chosen, x) <==> Has(query, x) && !Has(uncovered, x))
    && (chosen == [] ==> uncovered == query)
  }

  predicate PoolOf(query: Idx, candidates: seq<Idx>, pool: seq<Idx>) {
    && (forall i :: 0 <= i < |pool| ==> pool[i] in candidates && Subset(pool[i], query))
    && (forall i :: 0 <= i < |candidates| && Subset(candidates[i], query) ==> candidates[i] in pool)
  }

  lemma CoversWhenDone(query: Idx, candidates: seq<Idx>, pool: seq<Idx>, uncovered: Idx, chosen: seq<Idx>, rest: seq<Idx>)
    requires PoolOf(query, candidates, pool) && Accounts(query, pool, uncovered, chosen, rest)
    requires forall i, x: nat :: 0 <= i < |rest| && Has(rest[i], x) ==> !Has(uncovered, x)
    ensures Covers(query, candidates, chosen, uncovered)
  {
    hide Has, Subset;
    forall x: nat
      ensures Has(uncovered, x) <==> Has(query, x) && !Coverable(query, candidates, x)
      ensures AnyHas(chosen, x) <==> Has(query, x) && !Has(uncovered, x)
    {
      if Coverable(query, candidates, x) {
        var i :| 0 <= i < |candidates| && Subset(candidates[i], query) && Has(candidates[i], x);
        assert candidates[i] in pool;
      }
      if AnyHas(chosen, x) {
        var i :| 0 <= i < |chosen| && Has(chosen[i], x);
        var j :| 0 <= j < |pool| && pool[j] == chosen[i];
        var k :| 0 <= k < |candidates| && candidates[k] == pool[j];
        SubsetHas(candidates[k], query);
        assert Coverable(query, candidates, x);
      }
    }
  }

  /** Greedy set cover: the candidate that covers most comes next. */
  method CoverBy(query: Idx, candidates: seq<Idx>) returns (chosen: seq<Idx>, uncovered: Idx)
    ensures Covers(query, candidates, chosen, uncovered)
  {
    hide Has, Accounts, Gain, Subset, Difference, Covers;
    var pool: seq<Idx> := [];
    for i := 0 to |candidates|
      invariant forall j :: 0 <= j < |pool| ==> pool[j] in candidates && Subset(pool[j], query)
      invariant forall j :: 0 <= j < i && Subset(candidates[j], query) ==> candidates[j] in pool
    {
      if Subset(candidates[i], query) {
        pool := pool + [candidates[i]];
      }
    }
    chosen, uncovered := [], query;
    var rest := pool;
    AccountsStart(query, pool);
    while uncovered != []
      invariant Accounts(query, pool, uncovered, chosen, rest)
      decreases |rest|
    {
      var best := BestOf(uncovered, rest);
      if best.None? {
        forall i, x: nat | 0 <= i < |rest| && Has(rest[i], x)
          ensures !Has(uncovered, x)
        {
          if Has(uncovered, x) {
            GainMeets(uncovered, rest[i], x);
          }
        }
        CoversWhenDone(query, candidates, pool, uncovered, chosen, rest);
        return;
      }
      var b := best.value;
      AccountsStep(query, pool, uncovered, chosen, rest, b);
      chosen, uncovered := chosen + [rest[b]], Difference(uncovered, rest[b]);
      rest := rest[..b] + rest[b + 1..];
    }
    NothingHas();
    CoversWhenDone(query, candidates, pool, uncovered, chosen, rest);
  }

  // ---- The builder ----

  datatype BuilderError = Index | MissingCommitment(missing: Idx) | NotSupported | Cover(uncovered: Pair)

  /** The indices the encoding proof opens, if there is one. */
  datatype TranscriptProof = TranscriptProof(encoding: Option<seq<(Direction, Idx)>>) {
    function Openings(): seq<(Direction, Idx)> {
      if encoding.None? then [] else encoding.value
    }
  }

  /** What a list of kinds, most preferred first, leads to. */
  datatype Plan = Unsupported | Exhausted | Encode(rest: seq<Kind>)

  function PlanOf(kinds: seq<Kind>, hasTree: bool): Plan {
    if kinds == [] then Exhausted
    else if kinds[0].Hash? then Unsupported
    else if hasTree then Encode(kinds[1..])
    else PlanOf(kinds[1..], hasTree)
  }

  predicate Distinct(kinds: seq<Kind>) {
    forall i, j :: 0 <= i < j < |kinds| ==> kinds[i] != kinds[j]
  }

  function Tagged(d: Direction, idxs: seq<Idx>): (r: seq<(Direction, Idx)>)
    ensures |r| == |idxs| && forall i :: 0 <= i < |idxs| ==> r[i] == (d, idxs[i])
  {
    seq(|idxs|, i requires 0 <= i < |idxs| => (d, idxs[i]))
  }

  /** Some leaf of the direction that lies wholly inside the query holds the position. */
  predicate LeafCovers(leaves: seq<(Direction, Idx)>, d: Direction, query: Idx, x: nat) {
    exists i :: 0 <= i < |leaves| && leaves[i].0 == d && Subset(leaves[i].1, query) && Has(leaves[i].1, x)
  }

  /** All of the query can be opened without opening anything else. */
  ghost predicate Openable(tree: EncodingTree, query: Pair) {
    forall d: Direction, x: nat :: Has(query.At(d), x) ==> LeafCovers(tree.leaves, d, query.At(d), x)
  }

  /** The openings are leaves, and together they are exactly the query. */
  ghost predicate OpensExactly(tree: EncodingTree, query: Pair, openings: seq<(Direction, Idx)>) {
    && (forall i :: 0 <= i < |openings| ==> openings[i] in tree.leaves)
    && (forall d: Direction, x: nat :: SomeLeaf(openings, d, x) <==> Has(query.At(d), x))
  }

  /** What is left over is the query minus everything some committed subset of it holds. */
  ghost predicate LeavesUncovered(tree: EncodingTree, query: Pair, uncovered: Pair) {
    forall d: Direction, x: nat :: Has(uncovered.At(d), x) <==> Has(query.At(d), x) && !LeafCovers(tree.leaves, d, query.At(d), x)
  }

  ghost predicate BuildsAs(tree: Option<EncodingTree>, kinds: seq<Kind>, query: Pair, r: Result<TranscriptProof, BuilderError>) {
    if query == Pair([], []) then r == Ok(TranscriptProof(None))
    else
      match PlanOf(kinds, tree.Some?)
      case Unsupported => r == Err(NotSupported)
      case Exhausted => r == Err(Cover(query))
      case Encode(rest) =>
        && tree.Some?
        && (Openable(tree.value, query) ==> r.Ok? && OpensExactly(tree.value, query, r.value.Openings()))
        && (!Openable(tree.value, query) ==>
              if rest != [] then r == Err(NotSupported)
              else r.Err? && r.error.Cover? && LeavesUncovered(tree.value, query, r.error.uncovered))
  }

  lemma CoverableIsLeaf(leaves: seq<(Direction, Idx)>, d: Direction, query: Idx, x: nat)
    ensures Coverable(query, Only(leaves, d), x) <==> LeafCovers(leaves, d, query, x)
  {
    hide Has, Subset;
    var only := Only(leaves, d);
    if Coverable(query, only, x) {
      var i :| 0 <= i < |only| && Subset(only[i], query) && Has(only[i], x);
      assert only[i] in only;
      var j :| 0 <= j < |leaves| && leaves[j] == (d, only[i]);
    }
    if LeafCovers(leaves, d, query, x) {
      var j :| 0 <= j < |leaves| && leaves[j].0 == d && Subset(leaves[j].1, query) && Has(leaves[j].1, x);
      var i :| 0 <= i < |only| && only[i] == leaves[j].1;
    }
  }

  lemma EmptyWhen(idx: Idx)
    ensures idx == [] <==> forall x: nat :: !Has(idx, x)
  {
    if idx != [] {
      assert In(idx[0], idx[0].start);
      assert Has(idx, idx[0].start);
    }
  }

  /** One direction of a covering, in terms of the leaves. */
  ghost predicate CoversSide(leaves: seq<(Direction, Idx)>, d: Direction, query: Idx, chosen: seq<Idx>, uncovered: Idx) {
    && (forall i :: 0 <= i < |chosen| ==> (d, chosen[i]) in leaves)
    && (forall x: nat :: Has(uncovered, x) <==> Has(query, x) && !LeafCovers(leaves, d, query, x))
    && (forall x: nat :: AnyHas(chosen, x) <==> Has(query, x) && !Has(uncovered, x))
  }

  lemma SideCovered(leaves: seq<(Direction, Idx)>, d: Direction, query: Idx, chosen: seq<Idx>, uncovered: Idx)
    requires Covers(query, Only(leaves, d), chosen, uncovered)
    ensures CoversSide(leaves, d, query, chosen, uncovered)
  {
    hide Has, Subset;
    forall x: nat
      ensures Has(uncovered, x) <==> Has(query, x) && !LeafCovers(leaves, d, query, x)
    {
      CoverableIsLeaf(leaves, d, query, x);
    }
  }

  lemma OpeningsHave(sent: seq<Idx>, recv: seq<Idx>, d: Direction, x: nat)
    ensures SomeLeaf(Tagged(Sent, sent) + Tagged(Received, recv), d, x) <==> AnyHas(if d.Sent? then sent else recv, x)
  {
    hide Has;
    var all := Tagged(Sent, sent) + Tagged(Received, recv);
    if AnyHas(if d.Sent? then sent else recv, x) {
      if d.Sent? {
        var i :| 0 <= i < |sent| && Has(sent[i], x);
        assert all[i] == (Sent, sent[i]);
      } else {
        var i :| 0 <= i < |recv| && Has(recv[i], x);
        assert all[|sent| + i] == (Received, recv[i]);
      }
    }
  }

  /** The two directions together: either everything is opened, or the rest is reported. */
  lemma BothCovered(tree: EncodingTree, query: Pair, sent: seq<Idx>, recv: seq<Idx>, uncovered: Pair)
    requires CoversSide(tree.leaves, Sent, query.sent, sent, uncovered.sent)
    requires CoversSide(tree.leaves, Received, query.recv, recv, uncovered.recv)
    ensures LeavesUncovered(tree, query, uncovered)
    ensures uncovered == Pair([], []) <==> Openable(tree, query)
    ensures uncovered == Pair([], []) ==> OpensExactly(tree, query, Tagged(Sent, sent) + Tagged(Received, recv))
  {
    hide Has, LeafCovers;
    EmptyWhen(uncovered.sent);
    EmptyWhen(uncovered.recv);
    forall d: Direction, x: nat
      ensures Has(uncovered.At(d), x) <==> Has(query.At(d), x) && !LeafCovers(tree.leaves, d, query.At(d), x)
      ensures SomeLeaf(Tagged(Sent, sent) + Tagged(Received, recv), d, x) <==> Has(query.At(d), x) && !Has(uncovered.At(d), x)
    {
      OpeningsHave(sent, recv, d, x);
      match d
      case Sent =>
      case Received =>
    }
    if Openable(tree, query) {
      forall x: nat
        ensures !Has(uncovered.sent, x) && !Has(uncovered.recv, x)
      {
        assert Has(uncovered.At(Sent), x) <==> Has(query.At(Sent), x) && !LeafCovers(tree.leaves, Sent, query.At(Sent), x);
        assert Has(uncovered.At(Received), x) <==> Has(query.At(Received), x) && !LeafCovers(tree.leaves, Received, query.At(Received), x);
      }
    }
  }

  class TranscriptProofBuilder {
    const transcript: Transcript
    const tree: Option<EncodingTree>
    const committed: Pair
    var kinds: seq<Kind>
    var query: Pair

    ghost predicate Valid()
      reads this
    {
      && Distinct(kinds) && kinds != []
      && (tree.Some? ==> tree.value.Valid(transcript))
      && (forall d: Direction, x: nat :: Has(query.At(d), x) ==> Has(committed.At(d), x))
    }

    /** Whatever is committed, of any kind, may be revealed. */
    constructor (transcript: Transcript, tree: Option<EncodingTree>, hashes: Pair)
      requires tree.Some? ==> tree.value.Valid(transcript)
      ensures Valid() && kinds == [Encoding] && query == Pair([], [])
      ensures this.transcript == transcript && this.tree == tree
      ensures forall d: Direction, x: nat ::
        Has(committed.At(d), x) <==> Has(hashes.At(d), x) || (tree.Some? && SomeLeaf(tree.value.leaves, d, x))
    {
      this.transcript := transcript;
      this.tree := tree;
      var sent, recv := hashes.sent, hashes.recv;
      if tree.Some? {
        sent := Union(sent, tree.value.committed.sent);
        recv := Union(recv, tree.value.committed.recv);
      }
      committed := Pair(sent, recv);
      kinds := [Encoding];
      query := Pair([], []);
      new;
      hide Has, Union;
      NothingHas();
      forall d: Direction, x: nat
        ensures Has(committed.At(d), x) <==> Has(hashes.At(d), x) || (tree.Some? && SomeLeaf(tree.value.leaves, d, x))
      {
        if tree.Some? {
          UnionHas(hashes.At(d), tree.value.committed.At(d), x);
          assert Has(tree.value.committed.At(d), x) <==> SomeLeaf(tree.value.leaves, d, x);
        }
      }
    }

    /** Later repetitions are dropped; an empty list changes nothing. */
    method CommitmentKinds(wanted: seq<Kind>)
      requires Valid()
      modifies this`kinds
      ensures Valid()
      ensures wanted == [] ==> kinds == old(kinds)
      ensures wanted != [] ==> kinds[0] == wanted[0] && forall k :: k in kinds <==> k in wanted
    {
      if wanted == [] { return; }
      var seen: set<Kind>, kept: seq<Kind> := {}, [];
      for i := 0 to |wanted|
        invariant forall k :: k in seen <==> k in kept
        invariant forall k :: k in kept <==> k in wanted[..i]
        invariant Distinct(kept) && (i == 0 ==> kept == []) && (i > 0 ==> kept != [] && kept[0] == wanted[0])
      {
        assert wanted[..i + 1] == wanted[..i] + [wanted[i]];
        if wanted[i] !in seen {
          seen, kept := seen + {wanted[i]}, kept + [wanted[i]];
        }
      }
      assert wanted[..|wanted|] == wanted;
      kinds := kept;
    }

    /** Only positions inside the transcript that some commitment holds can be asked for. */
    method Reveal(idx: Idx, direction: Direction) returns (r: Result<(), BuilderError>)
      requires Valid()
      modifies this`query
      ensures Valid()
      ensures r.Ok? <==> InBounds(idx, |DataOf(transcript, direction)|) && Subset(idx, committed.At(direction))
      ensures query == if r.Ok? then old(query).With(direction, idx) else old(query)
      ensures r.Err? ==>
        if InBounds(idx, |DataOf(transcript, direction)|)
        then r.error == MissingCommitment(Difference(idx, committed.At(direction)))
        else r.error == Index
    {
      hide Has, Union;
      BoundsByEnd(idx, |DataOf(transcript, direction)|);
      if End(idx) > |DataOf(transcript, direction)| { return Err(Index); }
      if !Subset(idx, committed.At(direction)) {
        return Err(MissingCommitment(Difference(idx, committed.At(direction))));
      }
      SubsetHas(idx, committed.At(direction));
      forall d: Direction, x: nat
        ensures Has(query.With(direction, idx).At(d), x) ==> Has(committed.At(d), x)
      {
        UnionHas(query.At(direction), idx, x);
      }
      query := query.With(direction, idx);
      return Ok(());
    }

    /** Walks the kinds while something is uncovered. */
    method Build() returns (r: Result<TranscriptProof, BuilderError>)
      requires Valid()
      ensures BuildsAs(tree, kinds, query, r)
    {
      hide Has, Coverable, Subset, Openable, OpensExactly, LeavesUncovered, CoversSide;
      var encoding: Option<seq<(Direction, Idx)>> := None;
      var uncovered := query;
      var next := 0;
      ghost var plan := PlanOf(kinds, tree.Some?);
      assert kinds[0..] == kinds;
      while uncovered != Pair([], [])
        invariant next <= |kinds| && (next > 0 ==> query != Pair([], []))
        invariant (next == 0 || tree.None?) ==> encoding.None? && uncovered == query && PlanOf(kinds[next..], tree.Some?) == plan
        invariant (next > 0 && tree.Some?) ==>
          && plan == Encode(kinds[next..]) && kinds[0] == Encoding
          && (uncovered == Pair([], []) <==> Openable(tree.value, query))
          && LeavesUncovered(tree.value, query, uncovered)
          && (uncovered == Pair([], []) ==> OpensExactly(tree.value, query, TranscriptProof(encoding).Openings()))
        decreases |kinds| - next
      {
        if next == |kinds| { break; }
        var kind := kinds[next];
        assert kinds[next..][0] == kind && kinds[next..][1..] == kinds[next + 1..];
        next := next + 1;
        match kind {
          case Encoding =>
            if tree.None? { continue; }
            var sent, sentUncovered := CoverBy(uncovered.sent, Only(tree.value.leaves, Sent));
            var recv, recvUncovered := CoverBy(uncovered.recv, Only(tree.value.leaves, Received));
            SideCovered(tree.value.leaves, Sent, query.sent, sent, sentUncovered);
            SideCovered(tree.value.leaves, Received, query.recv, recv, recvUncovered);
            uncovered := Pair(sentUncovered, recvUncovered);
            BothCovered(tree.value, query, sent, recv, uncovered);
            var openings := Tagged(Sent, sent) + Tagged(Received, recv);
            if openings != [] {
              encoding := Some(openings);
            }
          case Hash(_) => return Err(NotSupported);
        }
      }
      if uncovered != Pair([], []) { return Err(Cover(uncovered)); }
      return Ok(TranscriptProof(encoding));
    }
  }

  // ---- When building succeeds ----

  /** Some committed leaf inside the query holds the position. */
  ghost predicate InsideLeaf(tree: EncodingTree, d: Direction, query: Idx, x: nat) {
    exists idx: Idx :: (d, idx) in tree.leaves && Has(idx, x) && forall y: nat :: Has(idx, y) ==> Has(query, y)
  }

  lemma LeafCoversWhen(tree: EncodingTree, d: Direction, query: Idx, x: nat)
    ensures LeafCovers(tree.leaves, d, query, x) <==> InsideLeaf(tree, d, query, x)
  {
    hide Has, Subset;
    if LeafCovers(tree.leaves, d, query, x) {
      var i :| 0 <= i < |tree.leaves| && tree.leaves[i].0 == d && Subset(tree.leaves[i].1, query) && Has(tree.leaves[i].1, x);
      SubsetHas(tree.leaves[i].1, query);
      assert (d, tree.leaves[i].1) == tree.leaves[i];
    }
    if InsideLeaf(tree, d, query, x) {
      var idx: Idx :| (d, idx) in tree.leaves && Has(idx, x) && forall y: nat :: Has(idx, y) ==> Has(query, y);
      SubsetHas(idx, query);
      var i :| 0 <= i < |tree.leaves| && tree.leaves[i] == (d, idx);
    }
  }

  /** Without an encoding tree only the kinds matter; hashes cannot be opened. */
  lemma {:induction false} PlanWithoutTree(kinds: seq<Kind>)
    ensures PlanOf(kinds, false) == if exists k :: k in kinds && k.Hash? then Unsupported else Exhausted
    decreases |kinds|
  {
    if kinds != [] {
      PlanWithoutTree(kinds[1..]);
      assert forall k :: k in kinds <==> k == kinds[0] || k in kinds[1..];
    }
  }

  /**
   * The outcome of building for a non-empty query: a hash as first choice, or needed because
   * encodings do not suffice, is not supported; with encodings first, it succeeds exactly when
   * every position lies in a leaf inside the query; a report names exactly the other positions.
   */
  lemma BuildOutcome(tree: Option<EncodingTree>, kinds: seq<Kind>, query: Pair, r: Result<TranscriptProof, BuilderError>)
    requires BuildsAs(tree, kinds, query, r) && kinds != [] && Distinct(kinds) && query != Pair([], [])
    ensures kinds[0].Hash? ==> r == Err(NotSupported)
    ensures tree.None? ==> r == if exists k :: k in kinds && k.Hash? then Err(NotSupported) else Err(Cover(query))
    ensures tree.Some? && kinds[0].Encoding? ==>
      && (r.Ok? <==>
            && (forall x: nat :: Has(query.sent, x) ==> InsideLeaf(tree.value, Sent, query.sent, x))
            && (forall x: nat :: Has(query.recv, x) ==> InsideLeaf(tree.value, Received, query.recv, x)))
      && (r.Ok? ==>
            && (forall o :: o in r.value.Openings() ==> o in tree.value.leaves)
            && (forall x: nat :: Has(query.sent, x) <==> SomeLeaf(r.value.Openings(), Sent, x))
            && (forall x: nat :: Has(query.recv, x) <==> SomeLeaf(r.value.Openings(), Received, x)))
      && (r.Err? && |kinds| > 1 ==> r == Err(NotSupported))
      && (r.Err? && |kinds| == 1 ==>
            && r.error.Cover?
            && (forall x: nat :: Has(r.error.uncovered.sent, x) <==> Has(query.sent, x) && !InsideLeaf(tree.value, Sent, query.sent, x))
            && (forall x: nat :: Has(r.error.uncovered.recv, x) <==> Has(query.recv, x) && !InsideLeaf(tree.value, Received, query.recv, x)))
  {
    hide Has, InsideLeaf, LeafCovers, SomeLeaf;
    if tree.None? {
      PlanWithoutTree(kinds);
    } else {
      assert query.At(Sent) == query.sent && query.At(Received) == query.recv;
      forall d: Direction, x: nat
        ensures LeafCovers(tree.value.leaves, d, query.At(d), x) <==> InsideLeaf(tree.value, d, query.At(d), x)
      {
        LeafCoversWhen(tree.value, d, query.At(d), x);
      }
      if r.Err? && r.error.Cover? {
        var u := r.error.uncovered;
        assert u.At(Sent) == u.sent && u.At(Received) == u.recv;
      }
    }
  }

  /** Asking for a union of whole leaves always succeeds with the default kinds. */
  lemma WholeLeavesOpen(tree: EncodingTree, wanted: seq<(Direction, Idx)>, query: Pair, r: Result<TranscriptProof, BuilderError>)
    requires forall i :: 0 <= i < |wanted| ==> wanted[i] in tree.leaves
    requires forall d: Direction, x: nat :: Has(query.At(d), x) <==> SomeLeaf(wanted, d, x)
    requires BuildsAs(Some(tree), [Encoding], query, r)
    ensures r.Ok? && (query != Pair([], []) ==> OpensExactly(tree, query, r.value.Openings()))
  {
    hide Has, OpensExactly, LeavesUncovered, Subset;
    forall d: Direction, x: nat | Has(query.At(d), x)
      ensures LeafCovers(tree.leaves, d, query.At(d), x)
    {
      var i :| 0 <= i < |wanted| && wanted[i].0 == d && Has(wanted[i].1, x);
      var j :| 0 <= j < |tree.leaves| && tree.leaves[j] == wanted[i];
      SubsetHas(wanted[i].1, query.At(d));
    }
    assert Openable(tree, query);
  }

  /** But what can be revealed need not build: part of one committed range is committed, yet cannot be opened alone. */
  lemma PartOfLeafFails(r: Result<TranscriptProof, BuilderError>)
    requires var part: Idx, leaf: Idx := [Range(0, 1)], [Range(0, 2)];
      BuildsAs(Some(EncodingTree([(Sent, leaf)], Pair(leaf, []))), [Encoding], Pair(part, []), r)
    ensures var part: Idx, leaf: Idx := [Range(0, 1)], [Range(0, 2)];
      Subset(part, leaf) && r.Err? && r.error == Cover(Pair(part, []))
  {
    hide Has, Subset, PlanOf;
    var part: Idx, leaf: Idx := [Range(0, 1)], [Range(0, 2)];
    var tree := EncodingTree([(Sent, leaf)], Pair(leaf, []));
    var query := Pair(part, []);
    PartInLeaf(part, leaf);
    forall d: Direction, x: nat
      ensures !LeafCovers(tree.leaves, d, query.At(d), x)
    {
    }
    assert Has(query.At(Sent), 0);
    assert !Openable(tree, query);
    OnlyEncoding();
    SameUncovered(tree, query, r.error.uncovered);
  }

  lemma OnlyEncoding()
    ensures PlanOf([Encoding], true) == Encode([])
  {
  }

  lemma PartInLeaf(part: Idx, leaf: Idx)
    requires part == [Range(0, 1)] && leaf == [Range(0, 2)]
    ensures Has(part, 0) && Subset(part, leaf) && !Subset(leaf, part) && !Subset(leaf, [])
  {
    assert In(part[0], 0) && In(leaf[0], 0) && In(leaf[0], 1);
    assert Has(leaf, 0) && Has(leaf, 1) && !Has(part, 1);
    forall x: nat | Has(part, x)
      ensures Has(leaf, x)
    {
      assert In(leaf[0], x);
    }
    SubsetHas(part, leaf);
    SubsetHas(leaf, part);
    NoneHas(0);
    SubsetHas(leaf, []);
  }

  /** With nothing covered, the report is the query. */
  lemma SameUncovered(tree: EncodingTree, query: Pair, uncovered: Pair)
    requires LeavesUncovered(tree, query, uncovered)
    requires forall d: Direction, x: nat :: !LeafCovers(tree.leaves, d, query.At(d), x)
    ensures uncovered == query
  {
    hide Has, LeafCovers;
    forall x: nat
      ensures Has(uncovered.sent, x) <==> Has(query.sent, x)
      ensures Has(uncovered.recv, x) <==> Has(query.recv, x)
    {
      assert Has(uncovered.At(Sent), x) <==> Has(query.At(Sent), x) && !LeafCovers(tree.leaves, Sent, query.At(Sent), x);
      assert Has(uncovered.At(Received), x) <==> Has(query.At(Received), x) && !LeafCovers(tree.leaves, Received, query.At(Received), x);
    }
    Canonical(uncovered.sent, query.sent);
    Canonical(uncovered.recv, query.recv);
  }
}
