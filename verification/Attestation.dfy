/** Attestations: the numbering of their fields, their Merkle root and proof, and the request they answer. */
module Attestation {
  import opened Bytes

  datatype TypedHash = TypedHash(alg: nat, value: seq<byte>)

  datatype EncodingCommitment = EncodingCommitment(root: TypedHash, secret: seq<byte>)

  /** Every kind of field is hashed under its own domain. */
  datatype FieldData =
    | VerifyingKey(key: seq<byte>)
    | ConnectionInfo(info: seq<byte>)
    | ServerEphemKey(ephemeral: seq<byte>)
    | ServerCertCommitment(commitment: TypedHash)
    | Encoding(encoding: EncodingCommitment)
    | PlaintextHash(plaintext: seq<byte>)
    | Extension(name: seq<byte>, value: seq<byte>)

  datatype Field = Field(id: nat, data: FieldData)

  datatype Body = Body(
    verifyingKey: Field, connectionInfo: Field, serverEphemeralKey: Field, certCommitment: Field,
    encodingCommitment: Option<Field>, plaintextHashes: seq<Field>, extensions: seq<Field>)

  datatype Hasher = Hasher(id: nat, leaf: FieldData -> seq<byte>, root: seq<seq<byte>> -> seq<byte>)

  datatype Signer = Signer(alg: nat, key: seq<byte>)

  datatype Provider = Provider(hashes: map<nat, Hasher>, signers: map<nat, Signer>)

  datatype Header = Header(root: TypedHash)

  datatype Signature = Signature(alg: nat)

  datatype Attestation = Attestation(signature: Signature, header: Header, body: Body)

  datatype Request = Request(
    signatureAlg: nat, hashAlg: nat, certCommitment: TypedHash, encodingRoot: Option<TypedHash>, extensions: seq<FieldData>)

  datatype Config = Config(signatureAlgs: set<nat>, hashAlgs: set<nat>, encodingSupported: bool, accepts: seq<FieldData> -> bool)

  datatype AttestationError = Unsupported | ExtensionRejected | MissingAlgorithm | MissingField | Inconsistent | Merkle

  // ---- Fields and their order ----

  /** All fields of a body, in the order they are hashed. */
  function Fields(b: Body): seq<Field> {
    [b.verifyingKey, b.connectionInfo, b.serverEphemeralKey, b.certCommitment]
      + (if b.encodingCommitment.Some? then [b.encodingCommitment.value] else [])
      + b.plaintextHashes + b.extensions
  }

  /** Ids are 0, 1, 2, ... in order. */
  predicate Numbered(fields: seq<Field>) {
    forall i :: 0 <= i < |fields| ==> fields[i].id == i
  }

  predicate SortedById(fields: seq<Field>) {
    forall i, j :: 0 <= i < j < |fields| ==> fields[i].id <= fields[j].id
  }

  function Leaves(h: Hasher, fields: seq<Field>): (r: seq<seq<byte>>)
    ensures |r| == |fields|
  {
    seq(|fields|, i requires 0 <= i < |fields| => h.leaf(fields[i].data))
  }

  function Inserted(sorted: seq<Field>, at: nat, f: Field): seq<Field>
    requires at <= |sorted|
  {
    sorted[..at] + [f] + sorted[at..]
  }

  lemma InsertKeepsOrder(sorted: seq<Field>, at: nat, f: Field)
    requires SortedById(sorted) && at <= |sorted|
    requires (at > 0 ==> sorted[at - 1].id <= f.id) && forall j :: at <= j < |sorted| ==> sorted[j].id > f.id
    ensures SortedById(Inserted(sorted, at, f))
  {
    var t := Inserted(sorted, at, f);
    forall i, j | 0 <= i < j < |t|
      ensures t[i].id <= t[j].id
    {
      assert t[i] == if i < at then sorted[i] else if i == at then f else sorted[i - 1];
      assert t[j] == if j < at then sorted[j] else if j == at then f else sorted[j - 1];
    }
  }

  lemma InsertAdds(sorted: seq<Field>, at: nat, f: Field)
    requires at <= |sorted|
    ensures multiset(Inserted(sorted, at, f)) == multiset(sorted) + multiset{f}
  {
    assert sorted == sorted[..at] + sorted[at..];
  }

  /** The fields with a given id, in order. */
  function OfId(fields: seq<Field>, id: nat): seq<Field> {
    if fields == [] then []
    else OfId(fields[..|fields| - 1], id) + if fields[|fields| - 1].id == id then [fields[|fields| - 1]] else []
  }

  lemma {:induction false} OfIdConcat(a: seq<Field>, b: seq<Field>, id: nat)
    ensures OfId(a + b, id) == OfId(a, id) + OfId(b, id)
    decreases |b|
  {
    if b == [] {
      assert a + b == a;
    } else {
      var n := |b| - 1;
      assert (a + b)[..|a + b| - 1] == a + b[..n];
      OfIdConcat(a, b[..n], id);
    }
  }

  lemma {:induction false} OfIdNone(fields: seq<Field>, id: nat)
    requires forall i :: 0 <= i < |fields| ==> fields[i].id != id
    ensures OfId(fields, id) == []
    decreases |fields|
  {
    if fields != [] {
      OfIdNone(fields[..|fields| - 1], id);
    }
  }

  lemma OfIdOne(f: Field, id: nat)
    ensures OfId([f], id) == if f.id == id then [f] else []
  {
    assert [f][..0] == [];
  }

  /** Inserting before larger ids only puts a field behind those of its own id. */
  lemma InsertIsStable(sorted: seq<Field>, at: nat, f: Field, id: nat)
    requires at <= |sorted| && forall j :: at <= j < |sorted| ==> sorted[j].id > f.id
    ensures OfId(Inserted(sorted, at, f), id) == OfId(sorted, id) + if f.id == id then [f] else []
  {
    hide OfId;
    var front, back := sorted[..at], sorted[at..];
    assert sorted == front + back;
    OfIdConcat(front, back, id);
    OfIdConcat(front + [f], back, id);
    OfIdConcat(front, [f], id);
    OfIdOne(f, id);
    if f.id == id {
      OfIdNone(back, id);
    }
  }

  lemma OfIdNext(fields: seq<Field>, i: nat, id: nat)
    requires i < |fields|
    ensures OfId(fields[..i + 1], id) == OfId(fields[..i], id) + if fields[i].id == id then [fields[i]] else []
  {
    assert fields[..i + 1][..i] == fields[..i];
  }

  /** Both have the same fields of every id, in the same order. */
  ghost predicate SameOrder(a: seq<Field>, b: seq<Field>) {
    forall id: nat :: OfId(a, id) == OfId(b, id)
  }

  lemma StableNext(fields: seq<Field>, i: nat, sorted: seq<Field>, at: nat)
    requires i < |fields| && SameOrder(sorted, fields[..i])
    requires at <= |sorted| && forall j :: at <= j < |sorted| ==> sorted[j].id > fields[i].id
    ensures SameOrder(Inserted(sorted, at, fields[i]), fields[..i + 1])
  {
    forall id: nat
      ensures OfId(Inserted(sorted, at, fields[i]), id) == OfId(fields[..i + 1], id)
    {
      InsertIsStable(sorted, at, fields[i], id);
      OfIdNext(fields, i, id);
      assert OfId(sorted, id) == OfId(fields[..i], id);
    }
  }

  /** A stable insertion sort by id. */
  method SortFields(fields: seq<Field>) returns (sorted: seq<Field>)
    ensures SortedById(sorted) && multiset(sorted) == multiset(fields) && SameOrder(sorted, fields)
    ensures SortedById(fields) ==> sorted == fields
  {
    hide SortedById, Inserted, OfId, SameOrder;
    sorted := [];
    NothingSorted();
    for i := 0 to |fields|
      invariant SortedById(sorted) && |sorted| == i && multiset(sorted) == multiset(fields[..i])
      invariant SortedById(fields) ==> sorted == fields[..i]
      invariant SameOrder(sorted, fields[..i])
    {
      var at := i;
      while at > 0 && sorted[at - 1].id > fields[i].id
        invariant 0 <= at <= i
        invariant forall j :: at <= j < i ==> sorted[j].id > fields[i].id
      {
        at := at - 1;
      }
      InsertKeepsOrder(sorted, at, fields[i]);
      InsertAdds(sorted, at, fields[i]);
      InsertedLen(sorted, at, fields[i]);
      NextFields(fields, i);
      StableNext(fields, i, sorted, at);
      if SortedById(fields) {
        LastStays(fields, sorted, i, at);
      }
      sorted := Inserted(sorted, at, fields[i]);
    }
    assert fields[..|fields|] == fields;
  }

  lemma NothingSorted()
    ensures SortedById([]) && SameOrder([], [])
  {
  }

  lemma NextFields(fields: seq<Field>, i: nat)
    requires i < |fields|
    ensures fields[..i + 1] == fields[..i] + [fields[i]]
    ensures multiset(fields[..i + 1]) == multiset(fields[..i]) + multiset{fields[i]}
  {
    assert fields[..i + 1] == fields[..i] + [fields[i]];
  }

  lemma LastStays(fields: seq<Field>, sorted: seq<Field>, i: nat, at: nat)
    requires SortedById(fields) && i < |fields| && sorted == fields[..i] && at <= i
    requires forall j :: at <= j < i ==> sorted[j].id > fields[i].id
    ensures at == i && Inserted(sorted, at, fields[i]) == fields[..i + 1] && |Inserted(sorted, at, fields[i])| == i + 1
  {
    var j := if at < i then at else 0;
    assert j < i ==> sorted[j] == fields[j];
  }

  lemma InsertedLen(sorted: seq<Field>, at: nat, f: Field)
    requires at <= |sorted|
    ensures |Inserted(sorted, at, f)| == |sorted| + 1
  {
  }

  /** Hashes every field and orders the hashes by id. */
  method HashFields(b: Body) returns (sorted: seq<Field>)
    ensures SortedById(sorted) && multiset(sorted) == multiset(Fields(b)) && SameOrder(sorted, Fields(b))
    ensures SortedById(Fields(b)) ==> sorted == Fields(b)
  {
    hide SortedById, SameOrder;
    var fields := [b.verifyingKey, b.connectionInfo, b.serverEphemeralKey, b.certCommitment];
    if b.encodingCommitment.Some? {
      fields := fields + [b.encodingCommitment.value];
    }
    ghost var first := fields;
    for i := 0 to |b.plaintextHashes|
      invariant fields == first + b.plaintextHashes[..i]
    {
      fields := fields + [b.plaintextHashes[i]];
    }
    assert b.plaintextHashes[..|b.plaintextHashes|] == b.plaintextHashes;
    ghost var second := fields;
    for i := 0 to |b.extensions|
      invariant fields == second + b.extensions[..i]
    {
      fields := fields + [b.extensions[i]];
    }
    assert b.extensions[..|b.extensions|] == b.extensions;
    assert fields == Fields(b);
    sorted := SortFields(fields);
  }

  // ---- The Merkle tree ----

  /** Unique, sorted and in bounds: what a tree of `count` leaves demands of the indices to prove. */
  predicate Provable(indices: seq<nat>, count: nat) {
    && indices != []
    && (forall i :: 0 <= i < |indices| - 1 ==> indices[i] < indices[i + 1])
    && indices[|indices| - 1] < count
  }

  function Ids(fields: seq<Field>): (r: seq<nat>)
    ensures |r| == |fields|
  {
    seq(|fields|, i requires 0 <= i < |fields| => fields[i].id)
  }

  lemma {:induction false} IncreasingAtLeast(indices: seq<nat>, i: nat)
    requires i < |indices| && forall j :: 0 <= j < |indices| - 1 ==> indices[j] < indices[j + 1]
    ensures indices[i] >= i
    ensures indices[i] + (|indices| - 1 - i) <= indices[|indices| - 1]
    decreases |indices| - i
  {
    if i + 1 < |indices| {
      IncreasingAtLeast(indices, i + 1);
    }
    IncreasingFromStart(indices, i);
  }

  lemma {:induction false} IncreasingFromStart(indices: seq<nat>, i: nat)
    requires i < |indices| && forall j :: 0 <= j < |indices| - 1 ==> indices[j] < indices[j + 1]
    ensures indices[i] >= i
    decreases i
  {
    if i > 0 {
      IncreasingFromStart(indices, i - 1);
      assert indices[i - 1] < indices[i - 1 + 1];
    }
  }

  /** As many indices as leaves are provable only if each is its own position. */
  lemma ProvableMeansNumbered(sorted: seq<Field>)
    ensures Provable(Ids(sorted), |sorted|) <==> sorted != [] && Numbered(sorted)
  {
    var ids := Ids(sorted);
    if Provable(ids, |sorted|) {
      forall i | 0 <= i < |sorted|
        ensures sorted[i].id == i
      {
        IncreasingAtLeast(ids, i);
      }
    }
  }

  /** The proof of all fields. `leafCount`: how many leaves the tree had. */
  datatype BodyProof = BodyProof(body: Body, leafCount: nat)

  /** Makes the proof; the tree panics on indices it cannot prove. */
  method NewBodyProof(b: Body) returns (r: Result<BodyProof, AttestationError>)
    ensures r.Ok? ==> r.value == BodyProof(b, |Fields(b)|)
    ensures r.Ok? <==> exists sorted :: SortedById(sorted) && multiset(sorted) == multiset(Fields(b)) && Numbered(sorted)
  {
    var sorted := HashFields(b);
    SamePermutation(sorted, Fields(b));
    var indices := Ids(sorted);
    ProvableMeansNumbered(sorted);
    if !Provable(indices, |sorted|) {
      forall other | SortedById(other) && multiset(other) == multiset(Fields(b)) && Numbered(other)
        ensures false
      {
        NumberedIsTheOrder(other, sorted);
      }
      return Err(Merkle);
    }
    return Ok(BodyProof(b, |sorted|));
  }

  lemma SamePermutation(a: seq<Field>, b: seq<Field>)
    requires multiset(a) == multiset(b)
    ensures |a| == |b|
  {
    assert |multiset(a)| == |a| && |multiset(b)| == |b|;
  }

  /** If some order of the fields numbers them, sorting finds it. */
  lemma {:induction false} NumberedIsTheOrder(other: seq<Field>, sorted: seq<Field>)
    requires Numbered(other) && SortedById(sorted) && multiset(sorted) == multiset(other)
    ensures sorted == other
    decreases |other|
  {
    SamePermutation(sorted, other);
    if other != [] {
      var n := |other| - 1;
      LastIsLargest(other, sorted);
      DropLast(sorted);
      DropLast(other);
      hide SortedById, Numbered;
      assert SortedById(sorted[..n]) && Numbered(other[..n]) by { PrefixesKeep(other, sorted, n); }
      NumberedIsTheOrder(other[..n], sorted[..n]);
    }
  }

  lemma PrefixesKeep(other: seq<Field>, sorted: seq<Field>, n: nat)
    requires Numbered(other) && SortedById(sorted) && n <= |other| == |sorted|
    ensures SortedById(sorted[..n]) && Numbered(other[..n])
  {
  }

  lemma DropLast(s: seq<Field>)
    requires s != []
    ensures s == s[..|s| - 1] + [s[|s| - 1]]
    ensures multiset(s[..|s| - 1]) == multiset(s) - multiset{s[|s| - 1]}
  {
    assert s == s[..|s| - 1] + [s[|s| - 1]];
  }

  lemma LastIsLargest(other: seq<Field>, sorted: seq<Field>)
    requires Numbered(other) && SortedById(sorted) && multiset(sorted) == multiset(other) && |sorted| == |other| > 0
    ensures sorted[|other| - 1] == other[|other| - 1]
  {
    var n := |other| - 1;
    assert other[n] in multiset(other);
    assert other[n] in multiset(sorted);
    var k :| 0 <= k < |sorted| && sorted[k] == other[n];
    assert sorted[n] in multiset(sorted);
    assert sorted[n] in multiset(other);
    var j :| 0 <= j < |other| && other[j] == sorted[n];
  }

  /** In this order the fields are numbered, and their tree has the proof's size and the header's root. */
  ghost predicate VerifiesAs(p: BodyProof, h: Hasher, header: Header, sorted: seq<Field>) {
    && multiset(sorted) == multiset(Fields(p.body)) && Numbered(sorted)
    && p.leafCount == |sorted| && h.root(Leaves(h, sorted)) == header.root.value
  }

  /** Verifies all fields against the header's root. */
  method VerifyBody(p: BodyProof, h: Hasher, header: Header) returns (r: Result<Body, AttestationError>)
    ensures r.Ok? <==> exists sorted :: VerifiesAs(p, h, header, sorted)
    ensures r.Ok? ==> r.value == p.body
  {
    hide SameOrder, SortedById;
    var sorted := HashFields(p.body);
    SamePermutation(sorted, Fields(p.body));
    forall other | VerifiesAs(p, h, header, other)
      ensures sorted == other
    {
      NumberedIsTheOrder(other, sorted);
    }
    var duplicate := exists i | 0 <= i < |sorted| - 1 :: sorted[i].id == sorted[i + 1].id;
    if duplicate { return Err(Merkle); }
    if !Numbered(sorted) || p.leafCount != |sorted| || h.root(Leaves(h, sorted)) != header.root.value { return Err(Merkle); }
    assert VerifiesAs(p, h, header, sorted);
    return Ok(p.body);
  }

  // ---- Building ----

  /** A counter that hands out consecutive ids. */
  class FieldCounter {
    var id: nat

    constructor ()
      ensures id == 0
    {
      id := 0;
    }

    method Next(data: FieldData) returns (f: Field)
      modifies this
      ensures f == Field(old(id), data) && id == old(id) + 1
    {
      f := Field(id, data);
      id := id + 1;
    }
  }

  /** What an accepted request leaves to be signed. */
  class AttestationBuilder {
    const request: Request
    var connectionInfo: Option<seq<byte>>
    var serverEphemeralKey: Option<seq<byte>>
    var encoderSecret: Option<seq<byte>>
    var extensions: seq<FieldData>

    constructor (request: Request)
      ensures this.request == request && extensions == request.extensions
      ensures connectionInfo.None? && serverEphemeralKey.None? && encoderSecret.None?
    {
      this.request := request;
      connectionInfo, serverEphemeralKey, encoderSecret := None, None, None;
      extensions := request.extensions;
    }

    /** Extensions the request asked for stay in front. */
    ghost predicate Valid()
      reads this
    {
      request.extensions <= extensions
    }

    static method AcceptRequest(config: Config, request: Request) returns (r: Result<AttestationBuilder, AttestationError>)
      ensures r.Ok? <==>
        && request.signatureAlg in config.signatureAlgs && request.hashAlg in config.hashAlgs
        && (request.encodingRoot.Some? ==> config.encodingSupported)
        && config.accepts(request.extensions)
      ensures r.Ok? ==> fresh(r.value) && r.value.Valid() && r.value.request == request && r.value.extensions == request.extensions
    {
      if request.signatureAlg !in config.signatureAlgs { return Err(Unsupported); }
      if request.hashAlg !in config.hashAlgs { return Err(Unsupported); }
      if request.encodingRoot.Some? && !config.encodingSupported { return Err(Unsupported); }
      if !config.accepts(request.extensions) { return Err(ExtensionRejected); }
      var builder := new AttestationBuilder(request);
      return Ok(builder);
    }

    method SetConnectionInfo(info: seq<byte>)
      requires Valid()
      modifies this`connectionInfo
      ensures Valid() && connectionInfo == Some(info)
    {
      connectionInfo := Some(info);
    }

    method SetServerEphemeralKey(key: seq<byte>)
      requires Valid()
      modifies this`serverEphemeralKey
      ensures Valid() && serverEphemeralKey == Some(key)
    {
      serverEphemeralKey := Some(key);
    }

    method SetEncoderSecret(secret: seq<byte>)
      requires Valid()
      modifies this`encoderSecret
      ensures Valid() && encoderSecret == Some(secret)
    {
      encoderSecret := Some(secret);
    }

    method AddExtension(extension: FieldData)
      requires Valid()
      modifies this`extensions
      ensures Valid() && extensions == old(extensions) + [extension]
    {
      extensions := extensions + [extension];
    }

    /** Numbers the fields as it goes, then hashes and signs. */
    method Build(provider: Provider) returns (r: Result<Attestation, AttestationError>)
      requires Valid()
      ensures r.Ok? <==>
        && request.hashAlg in provider.hashes && request.signatureAlg in provider.signers
        && (request.encodingRoot.Some? ==> encoderSecret.Some?) && connectionInfo.Some? && serverEphemeralKey.Some?
      ensures r.Ok? ==> BuiltFrom(request, extensions, provider, r.value)
      ensures r.Ok? ==>
        && r.value.body.verifyingKey.data == VerifyingKey(provider.signers[request.signatureAlg].key)
        && r.value.body.connectionInfo.data == ConnectionInfo(connectionInfo.value)
        && r.value.body.serverEphemeralKey.data == ServerEphemKey(serverEphemeralKey.value)
        && r.value.body.certCommitment.data == ServerCertCommitment(request.certCommitment)
        && (request.encodingRoot.Some? ==>
              && r.value.body.encodingCommitment.Some?
              && r.value.body.encodingCommitment.value.data == Encoding(EncodingCommitment(request.encodingRoot.value, encoderSecret.value)))
        && |r.value.body.extensions| == |extensions|
        && (forall i :: 0 <= i < |extensions| ==> r.value.body.extensions[i].data == extensions[i])
    {
      hide Numbered, SortedById, Fields, SameOrder, OfId;
      if request.hashAlg !in provider.hashes { return Err(MissingAlgorithm); }
      if request.signatureAlg !in provider.signers { return Err(MissingAlgorithm); }
      var hasher, signer := provider.hashes[request.hashAlg], provider.signers[request.signatureAlg];
      if request.encodingRoot.Some? && encoderSecret.None? { return Err(MissingField); }
      var counter := new FieldCounter();
      var key := counter.Next(VerifyingKey(signer.key));
      if connectionInfo.None? { return Err(MissingField); }
      var info := counter.Next(ConnectionInfo(connectionInfo.value));
      if serverEphemeralKey.None? { return Err(MissingField); }
      var ephemeral := counter.Next(ServerEphemKey(serverEphemeralKey.value));
      var cert := counter.Next(ServerCertCommitment(request.certCommitment));
      var encoding: Option<Field> := None;
      if request.encodingRoot.Some? {
        var field := counter.Next(Encoding(EncodingCommitment(request.encodingRoot.value, encoderSecret.value)));
        encoding := Some(field);
      }
      var fields: seq<Field> := [];
      ghost var first := counter.id;
      for i := 0 to |extensions|
        invariant |fields| == i && counter.id == first + i && unchanged(this)
        invariant forall j :: 0 <= j < i ==> fields[j] == Field(first + j, extensions[j])
        modifies counter
      {
        var field := counter.Next(extensions[i]);
        fields := fields + [field];
      }
      var body := Body(key, info, ephemeral, cert, encoding, [], fields);
      NumberedFields(body, extensions, first);
      var sorted := HashFields(body);
      var root := TypedHash(hasher.id, hasher.root(Leaves(hasher, sorted)));
      return Ok(Attestation(Signature(signer.alg), Header(root), body));
    }
  }

  /** Four ids, one more for an encoding commitment, then the extensions. */
  lemma NumberedFields(b: Body, extensions: seq<FieldData>, first: nat)
    requires b.verifyingKey.id == 0 && b.connectionInfo.id == 1 && b.serverEphemeralKey.id == 2 && b.certCommitment.id == 3
    requires b.encodingCommitment.Some? ==> b.encodingCommitment.value.id == 4
    requires first == (if b.encodingCommitment.Some? then 5 else 4) && b.plaintextHashes == []
    requires |b.extensions| == |extensions| && forall j :: 0 <= j < |extensions| ==> b.extensions[j] == Field(first + j, extensions[j])
    ensures Numbered(Fields(b)) && SortedById(Fields(b))
  {
    var front := [b.verifyingKey, b.connectionInfo, b.serverEphemeralKey, b.certCommitment]
      + (if b.encodingCommitment.Some? then [b.encodingCommitment.value] else []);
    assert Fields(b) == front + b.extensions && |front| == first;
  }

  /** What a successful build guarantees about its result. */
  ghost predicate BuiltFrom(request: Request, extensions: seq<FieldData>, provider: Provider, a: Attestation) {
    && request.hashAlg in provider.hashes && request.signatureAlg in provider.signers
    && Numbered(Fields(a.body)) && a.body.plaintextHashes == []
    && a.signature.alg == provider.signers[request.signatureAlg].alg
    && var hasher := provider.hashes[request.hashAlg];
    && a.header.root == TypedHash(hasher.id, hasher.root(Leaves(hasher, Fields(a.body))))
    && a.body.certCommitment.data == ServerCertCommitment(request.certCommitment)
    && (a.body.encodingCommitment.Some? <==> request.encodingRoot.Some?)
    && (request.encodingRoot.Some? ==>
          && a.body.encodingCommitment.value.data.Encoding?
          && a.body.encodingCommitment.value.data.encoding.root == request.encodingRoot.value)
    && |a.body.extensions| == |extensions|
    && (forall i :: 0 <= i < |extensions| ==> a.body.extensions[i].data == extensions[i])
  }

  // ---- What the root binds ----

  /** Every field of the body, each as often as it is in it. */
  lemma FieldsComplete(b: Body)
    ensures multiset(Fields(b)) == multiset{b.verifyingKey, b.connectionInfo, b.serverEphemeralKey, b.certCommitment}
              + (if b.encodingCommitment.Some? then multiset{b.encodingCommitment.value} else multiset{})
              + multiset(b.plaintextHashes) + multiset(b.extensions)
  {
  }

  /** Each field holds data of its own kind. */
  predicate WellKinded(b: Body) {
    && b.verifyingKey.data.VerifyingKey? && b.connectionInfo.data.ConnectionInfo?
    && b.serverEphemeralKey.data.ServerEphemKey? && b.certCommitment.data.ServerCertCommitment?
    && (b.encodingCommitment.Some? ==> b.encodingCommitment.value.data.Encoding?)
    && (forall i :: 0 <= i < |b.plaintextHashes| ==> b.plaintextHashes[i].data.PlaintextHash?)
    && (forall i :: 0 <= i < |b.extensions| ==> b.extensions[i].data.Extension?)
  }

  /** No two leaves and no two lists of leaves hash alike. */
  ghost predicate Injective(h: Hasher) {
    && (forall x: FieldData, y: FieldData :: h.leaf(x) == h.leaf(y) ==> x == y)
    && (forall x: seq<seq<byte>>, y: seq<seq<byte>> :: h.root(x) == h.root(y) ==> x == y)
  }

  lemma LeavesTell(h: Hasher, x: seq<Field>, y: seq<Field>)
    requires Injective(h) && Numbered(x) && Numbered(y) && h.root(Leaves(h, x)) == h.root(Leaves(h, y))
    ensures x == y
  {
    assert Leaves(h, x) == Leaves(h, y);
    forall i | 0 <= i < |x|
      ensures x[i] == y[i]
    {
      assert Leaves(h, x)[i] == Leaves(h, y)[i];
    }
  }

  lemma {:induction false} HashesThenExtensions(p: seq<Field>, e: seq<Field>, q: seq<Field>, g: seq<Field>)
    requires p + e == q + g
    requires (forall i :: 0 <= i < |p| ==> p[i].data.PlaintextHash?) && (forall i :: 0 <= i < |q| ==> q[i].data.PlaintextHash?)
    requires (forall i :: 0 <= i < |e| ==> e[i].data.Extension?) && (forall i :: 0 <= i < |g| ==> g[i].data.Extension?)
    ensures p == q && e == g
  {
    assert |p| < |p + e| ==> (p + e)[|p|].data.Extension?;
    assert |q| < |q + g| ==> (q + g)[|q|].data.Extension?;
    assert p == (p + e)[..|p|] && q == (q + g)[..|q|];
    assert e == (p + e)[|p|..] && g == (q + g)[|q|..];
  }

  lemma FieldParts(b: Body)
    ensures var x, n := Fields(b), if b.encodingCommitment.Some? then 5 else 4;
      && |x| >= n && x[0] == b.verifyingKey && x[1] == b.connectionInfo && x[2] == b.serverEphemeralKey && x[3] == b.certCommitment
      && (b.encodingCommitment.Some? ==> x[4] == b.encodingCommitment.value)
      && x[n..] == b.plaintextHashes + b.extensions
  {
  }

  /** One root attests to one body: no field can be left out, added, changed or moved. */
  lemma RootBinds(h: Hasher, a: Body, b: Body)
    requires Injective(h) && WellKinded(a) && WellKinded(b) && Numbered(Fields(a)) && Numbered(Fields(b))
    requires h.root(Leaves(h, Fields(a))) == h.root(Leaves(h, Fields(b)))
    ensures a == b
  {
    hide Injective, Numbered, Fields;
    LeavesTell(h, Fields(a), Fields(b));
    FieldParts(a);
    FieldParts(b);
    if a.encodingCommitment.Some? {
      KindAt(b, 4);
    }
    if b.encodingCommitment.Some? {
      KindAt(a, 4);
    }
    HashesThenExtensions(a.plaintextHashes, a.extensions, b.plaintextHashes, b.extensions);
  }

  /** Only an encoding commitment has its kind. */
  lemma KindAt(b: Body, i: nat)
    requires WellKinded(b) && 4 <= i < |Fields(b)| && Fields(b)[i].data.Encoding?
    ensures b.encodingCommitment.Some? && i == 4 && Fields(b)[4] == b.encodingCommitment.value
  {
    var first := if b.encodingCommitment.Some? then 5 else 4;
    assert Fields(b)[first..] == b.plaintextHashes + b.extensions;
  }

  // ---- Validating against the request ----

  predicate HasExtension(fields: seq<Field>, e: FieldData) {
    exists i :: 0 <= i < |fields| && fields[i].data == e
  }

  predicate Answers(request: Request, a: Attestation) {
    && a.signature.alg == request.signatureAlg && a.header.root.alg == request.hashAlg
    && a.body.certCommitment.data == ServerCertCommitment(request.certCommitment)
    && (request.encodingRoot.Some? ==>
          && a.body.encodingCommitment.Some? && a.body.encodingCommitment.value.data.Encoding?
          && a.body.encodingCommitment.value.data.encoding.root == request.encodingRoot.value)
    && forall i :: 0 <= i < |request.extensions| ==> HasExtension(a.body.extensions, request.extensions[i])
  }

  lemma ExtensionWhen(fields: seq<Field>, e: FieldData)
    ensures HasExtension(fields, e) <==> exists f :: f in fields && f.data == e
  {
  }

  /** Field by field: what an accepted attestation has in common with the request. */
  lemma AnswersWhen(request: Request, a: Attestation)
    ensures Answers(request, a) <==>
      && a.signature.alg == request.signatureAlg
      && a.header.root.alg == request.hashAlg
      && a.body.certCommitment.data.ServerCertCommitment? && a.body.certCommitment.data.commitment == request.certCommitment
      && (request.encodingRoot.Some? ==>
            && a.body.encodingCommitment.Some? && a.body.encodingCommitment.value.data.Encoding?
            && a.body.encodingCommitment.value.data.encoding.root == request.encodingRoot.value)
      && (forall e :: e in request.extensions ==> exists f :: f in a.body.extensions && f.data == e)
  {
    hide HasExtension;
    var asked, given := request.extensions, a.body.extensions;
    if forall i :: 0 <= i < |asked| ==> HasExtension(given, asked[i]) {
      forall e | e in asked
        ensures exists f :: f in given && f.data == e
      {
        var i :| 0 <= i < |asked| && asked[i] == e;
        ExtensionWhen(given, asked[i]);
      }
    }
    if forall e :: e in asked ==> exists f :: f in given && f.data == e {
      forall i | 0 <= i < |asked|
        ensures HasExtension(given, asked[i])
      {
        assert asked[i] in asked;
        ExtensionWhen(given, asked[i]);
      }
    }
  }

  /** An attestation binds the request: accepted for two, they asked for the same thing. */
  lemma AnswersBind(one: Request, other: Request, a: Attestation)
    requires Answers(one, a) && Answers(other, a)
    ensures one.signatureAlg == other.signatureAlg && one.hashAlg == other.hashAlg && one.certCommitment == other.certCommitment
    ensures one.encodingRoot.Some? && other.encodingRoot.Some? ==> one.encodingRoot == other.encodingRoot
  {
    AnswersWhen(one, a);
    AnswersWhen(other, a);
  }

  method Validate(request: Request, a: Attestation) returns (r: Result<(), AttestationError>)
    ensures r.Ok? <==> Answers(request, a)
    ensures r.Ok? <==>
      && a.signature.alg == request.signatureAlg
      && a.header.root.alg == request.hashAlg
      && a.body.certCommitment.data.ServerCertCommitment? && a.body.certCommitment.data.commitment == request.certCommitment
      && (request.encodingRoot.Some? ==>
            && a.body.encodingCommitment.Some? && a.body.encodingCommitment.value.data.Encoding?
            && a.body.encodingCommitment.value.data.encoding.root == request.encodingRoot.value)
      && (forall e :: e in request.extensions ==> exists f :: f in a.body.extensions && f.data == e)
  {
    AnswersWhen(request, a);
    if a.signature.alg != request.signatureAlg { return Err(Inconsistent); }
    if a.header.root.alg != request.hashAlg { return Err(Inconsistent); }
    if a.body.certCommitment.data != ServerCertCommitment(request.certCommitment) { return Err(Inconsistent); }
    if request.encodingRoot.Some? {
      if a.body.encodingCommitment.None? { return Err(Inconsistent); }
      var data := a.body.encodingCommitment.value.data;
      if !data.Encoding? || data.encoding.root != request.encodingRoot.value { return Err(Inconsistent); }
    }
    for i := 0 to |request.extensions|
      invariant forall j :: 0 <= j < i ==> HasExtension(a.body.extensions, request.extensions[j])
    {
      if !HasExtension(a.body.extensions, request.extensions[i]) { return Err(Inconsistent); }
    }
    return Ok(());
  }

  /**
   * What is built from a request answers it exactly when the provider's algorithms are the ones
   * they are registered as; extensions added after the request do no harm.
   */
  lemma BuiltAnswersRequest(request: Request, extensions: seq<FieldData>, provider: Provider, a: Attestation)
    requires request.extensions <= extensions && BuiltFrom(request, extensions, provider, a)
    ensures Answers(request, a) <==>
      provider.hashes[request.hashAlg].id == request.hashAlg && provider.signers[request.signatureAlg].alg == request.signatureAlg
  {
    forall i | 0 <= i < |request.extensions|
      ensures HasExtension(a.body.extensions, request.extensions[i])
    {
      assert a.body.extensions[i].data == extensions[i] == request.extensions[i];
    }
  }

  /** Every built body has provable fields: each id is its leaf's position. */
  lemma BuiltIsProvable(request: Request, extensions: seq<FieldData>, provider: Provider, a: Attestation)
    requires BuiltFrom(request, extensions, provider, a)
    ensures SortedById(Fields(a.body)) && Provable(Ids(Fields(a.body)), |Fields(a.body)|)
    ensures exists sorted :: SortedById(sorted) && multiset(sorted) == multiset(Fields(a.body)) && Numbered(sorted)
    ensures var h, fields := provider.hashes[request.hashAlg], Fields(a.body);
      forall f :: f in fields ==> f.id < |Leaves(h, fields)| && Leaves(h, fields)[f.id] == h.leaf(f.data)
  {
    ProvableMeansNumbered(Fields(a.body));
  }
}
