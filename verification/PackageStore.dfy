/** The in-memory package store: verified registration, lookup, and the index by name. */
module PackageStore {
  import opened Wrappers

  type PackageId = string
  type Bytes = seq<bv8>

  datatype AppPackage = AppPackage(
    id: PackageId,
    name: string,
    version: string,
    manifest: Bytes,
    contentHash: string,
    signature: Bytes,
    signerKey: Bytes,
    registeredAt: int)

  datatype Error =
    | UnknownAuthority
    | InvalidKeyLength
    | InvalidKey
    | InvalidSignatureLength
    | InvalidSignature
    | HashMismatch(expected: string, computed: string)
    | EmitFailed
    | PackageNotFound(id: PackageId)

  /** The cryptographic primitives: key decoding, strict signature verification, the content hash. */
  datatype Crypto = Crypto(isKey: Bytes -> bool, verify: (Bytes, Bytes, Bytes) -> bool, hash: Bytes -> string)

  datatype Store = Store(packages: map<PackageId, AppPackage>, nameIndex: map<string, seq<PackageId>>)

  const EMPTY := Store(map[], map[])

  // ---------------------------------------------------------------------------
  // Checks
  // ---------------------------------------------------------------------------

  const KEY_LENGTH: nat := 32
  const SIGNATURE_LENGTH: nat := 64

  function VerifySignature(c: Crypto, p: AppPackage): Result<bool, Error> {
    if |p.signerKey| != KEY_LENGTH then Err(InvalidKeyLength)
    else if !c.isKey(p.signerKey) then Err(InvalidKey)
    else if |p.signature| != SIGNATURE_LENGTH then Err(InvalidSignatureLength)
    else Ok(c.verify(p.signerKey, p.manifest, p.signature))
  }

  /** What a stored package must have passed: a trusted signer, a well-formed and valid signature
      over the manifest, and a matching content hash. */
  ghost predicate Trustworthy(c: Crypto, trusted: set<Bytes>, p: AppPackage) {
    && p.signerKey in trusted
    && |p.signerKey| == 32 && c.isKey(p.signerKey)
    && |p.signature| == 64 && c.verify(p.signerKey, p.manifest, p.signature)
    && c.hash(p.manifest) == p.contentHash
  }

  /** The first check that fails. */
  function Objection(c: Crypto, trusted: set<Bytes>, p: AppPackage): (r: Option<Error>)
    ensures r.None? <==> Trustworthy(c, trusted, p)
  {
    if p.signerKey !in trusted then Some(UnknownAuthority)
    else
      match VerifySignature(c, p)
      case Err(e) => Some(e)
      case Ok(valid) =>
        if !valid then Some(InvalidSignature)
        else if c.hash(p.manifest) != p.contentHash then Some(HashMismatch(p.contentHash, c.hash(p.manifest)))
        else None
  }

  // ---------------------------------------------------------------------------
  // Registration
  // ---------------------------------------------------------------------------

  function VersionsOf(s: Store, name: string): seq<PackageId> {
    if name in s.nameIndex then s.nameIndex[name] else []
  }

  function Lookup(s: Store, id: PackageId): Option<AppPackage> {
    if id in s.packages then Some(s.packages[id]) else None
  }

  /** A registration attempt: the package and the outcome of its emission. */
  datatype Attempt = Attempt(package: AppPackage, emission: Emission)

  /** Does the attempt report success? */
  predicate Succeeds(c: Crypto, trusted: set<Bytes>, a: Attempt) {
    Objection(c, trusted, a.package).None? && !a.emission.Rejected?
  }

  /** A package that passes is stored before its emission and indexed after it. */
  function Registered(c: Crypto, trusted: set<Bytes>, s: Store, a: Attempt): Store {
    var p := a.package;
    if Objection(c, trusted, p).Some? then s
    else
      var stored := s.(packages := s.packages[p.id := p]);
      if a.emission.Rejected? then stored
      else stored.(nameIndex := s.nameIndex[p.name := VersionsOf(s, p.name) + [p.id]])
  }

  class InMemoryPackageStore {
    const crypto: Crypto
    const trusted: set<Bytes>
    var packages: map<PackageId, AppPackage>
    var nameIndex: map<string, seq<PackageId>>

    ghost function View(): Store
      reads this
    {
      Store(packages, nameIndex)
    }

    constructor (crypto: Crypto, trusted: set<Bytes>)
      ensures this.crypto == crypto && this.trusted == trusted && View() == EMPTY
    {
      this.crypto, this.trusted := crypto, trusted;
      packages, nameIndex := map[], map[];
    }

    method RegisterPackage(p: AppPackage, emission: Emission) returns (r: Result<PackageId, Error>)
      modifies this
      ensures View() == Registered(crypto, trusted, old(View()), Attempt(p, emission))
      ensures r.Ok? <==> Trustworthy(crypto, trusted, p) && !emission.Rejected?
      ensures r == if p.signerKey !in trusted then Err(UnknownAuthority)
                   else if |p.signerKey| != 32 then Err(InvalidKeyLength)
                   else if !crypto.isKey(p.signerKey) then Err(InvalidKey)
                   else if |p.signature| != 64 then Err(InvalidSignatureLength)
                   else if !crypto.verify(p.signerKey, p.manifest, p.signature) then Err(InvalidSignature)
                   else if crypto.hash(p.manifest) != p.contentHash
                   then Err(HashMismatch(p.contentHash, crypto.hash(p.manifest)))
                   else if emission == Rejected then Err(EmitFailed)
                   else Ok(p.id)
      ensures packages == if Trustworthy(crypto, trusted, p) then old(packages)[p.id := p] else old(packages)
      ensures nameIndex == if r.Err? then old(nameIndex)
                           else if p.name in old(nameIndex)
                           then old(nameIndex)[p.name := old(nameIndex)[p.name] + [p.id]]
                           else old(nameIndex)[p.name := [p.id]]
    {
      if p.signerKey !in trusted {
        return Err(UnknownAuthority);
      }
      var valid := VerifySignature(crypto, p);
      if valid.Err? {
        return Err(valid.error);
      }
      if !valid.value {
        return Err(InvalidSignature);
      }
      var computed := crypto.hash(p.manifest);
      if computed != p.contentHash {
        return Err(HashMismatch(p.contentHash, computed));
      }
      packages := packages[p.id := p];
      if emission.Rejected? {
        return Err(EmitFailed);
      }
      var ids := if p.name in nameIndex then nameIndex[p.name] else [];
      assert [] + [p.id] == [p.id];
      nameIndex := nameIndex[p.name := ids + [p.id]];
      r := Ok(p.id);
    }

    method LookupPackage(id: PackageId) returns (r: Result<AppPackage, Error>)
      ensures r.Ok? <==> Lookup(View(), id).Some?
      ensures r == if r.Ok? then Ok(Lookup(View(), id).value) else Err(PackageNotFound(id))
    {
      r := if id in packages then Ok(packages[id]) else Err(PackageNotFound(id));
    }

    method ListVersionsOf(name: string) returns (ids: seq<PackageId>)
      ensures ids == VersionsOf(View(), name)
    {
      ids := if name in nameIndex then nameIndex[name] else [];
    }
  }

  // ---------------------------------------------------------------------------
  // Runs
  // ---------------------------------------------------------------------------

  function Run(c: Crypto, trusted: set<Bytes>, s: Store, attempts: seq<Attempt>): Store
    decreases |attempts|
  {
    if attempts == [] then s
    else Run(c, trusted, Registered(c, trusted, s, attempts[0]), attempts[1..])
  }

  /** The log of successful registrations under the name, oldest first. */
  function SuccessLog(c: Crypto, trusted: set<Bytes>, attempts: seq<Attempt>, name: string): seq<PackageId> {
    if attempts == [] then []
    else
      (if Succeeds(c, trusted, attempts[0]) && attempts[0].package.name == name then [attempts[0].package.id] else [])
      + SuccessLog(c, trusted, attempts[1..], name)
  }

  /** What the store holds for an id: the package of its last registration to pass the checks. */
  function LastPassed(c: Crypto, trusted: set<Bytes>, attempts: seq<Attempt>, id: PackageId): Option<AppPackage> {
    if attempts == [] then None
    else
      var last := attempts[|attempts| - 1];
      if last.package.id == id && Objection(c, trusted, last.package).None? then Some(last.package)
      else LastPassed(c, trusted, attempts[..|attempts| - 1], id)
  }

  lemma {:induction false} IndexRun(c: Crypto, trusted: set<Bytes>, s: Store, attempts: seq<Attempt>, name: string)
    ensures VersionsOf(Run(c, trusted, s, attempts), name) ==
            VersionsOf(s, name) + SuccessLog(c, trusted, attempts, name)
    decreases |attempts|
  {
    if attempts != [] {
      IndexRun(c, trusted, Registered(c, trusted, s, attempts[0]), attempts[1..], name);
    }
  }

  /** Listing the versions of a name gives the log of its successful registrations. */
  lemma VersionsAreTheLog(c: Crypto, trusted: set<Bytes>, attempts: seq<Attempt>, name: string)
    ensures VersionsOf(Run(c, trusted, EMPTY, attempts), name) == SuccessLog(c, trusted, attempts, name)
  {
    IndexRun(c, trusted, EMPTY, attempts, name);
  }

  lemma {:induction false} RunSplits(c: Crypto, trusted: set<Bytes>, s: Store, attempts: seq<Attempt>)
    requires attempts != []
    ensures Run(c, trusted, s, attempts) ==
            Registered(c, trusted, Run(c, trusted, s, attempts[..|attempts| - 1]), attempts[|attempts| - 1])
    decreases |attempts|
  {
    var n := |attempts| - 1;
    if n > 0 {
      RunSplits(c, trusted, Registered(c, trusted, s, attempts[0]), attempts[1..]);
      assert attempts[1..][..n - 1] == attempts[..n][1..];
    }
  }

  /** Looking up an id gives the last package registered under it that passed the checks. */
  lemma {:induction false} LookupIsLastPassed(c: Crypto, trusted: set<Bytes>, attempts: seq<Attempt>, id: PackageId)
    ensures Lookup(Run(c, trusted, EMPTY, attempts), id) == LastPassed(c, trusted, attempts, id)
    decreases |attempts|
  {
    if attempts != [] {
      RunSplits(c, trusted, EMPTY, attempts);
      LookupIsLastPassed(c, trusted, attempts[..|attempts| - 1], id);
    }
  }

  /** Every stored package passed the checks and is filed under its id; every indexed id is
      stored. */
  ghost predicate Sound(c: Crypto, trusted: set<Bytes>, s: Store) {
    && (forall id :: id in s.packages ==> s.packages[id].id == id && Trustworthy(c, trusted, s.packages[id]))
    && forall name, i :: 0 <= i < |VersionsOf(s, name)| ==> VersionsOf(s, name)[i] in s.packages
  }

  lemma {:induction false} RunIsSound(c: Crypto, trusted: set<Bytes>, s: Store, attempts: seq<Attempt>)
    requires Sound(c, trusted, s)
    ensures Sound(c, trusted, Run(c, trusted, s, attempts))
    decreases |attempts|
  {
    if attempts != [] {
      RegisteredIsSound(c, trusted, s, attempts[0]);
      RunIsSound(c, trusted, Registered(c, trusted, s, attempts[0]), attempts[1..]);
    }
  }

  lemma RegisteredIsSound(c: Crypto, trusted: set<Bytes>, s: Store, a: Attempt)
    requires Sound(c, trusted, s)
    ensures Sound(c, trusted, Registered(c, trusted, s, a))
  {
    var s' := Registered(c, trusted, s, a);
    forall name, i | 0 <= i < |VersionsOf(s', name)|
      ensures VersionsOf(s', name)[i] in s'.packages
    {
      if i < |VersionsOf(s, name)| {
        assert VersionsOf(s', name)[i] == VersionsOf(s, name)[i];
      }
    }
  }

  lemma ReachableIsSound(c: Crypto, trusted: set<Bytes>, attempts: seq<Attempt>)
    ensures Sound(c, trusted, Run(c, trusted, EMPTY, attempts))
  {
    RunIsSound(c, trusted, EMPTY, attempts);
  }

  // ---------------------------------------------------------------------------
  // Stored but not indexed
  // ---------------------------------------------------------------------------

  ghost predicate IsIndexed(s: Store, p: AppPackage) {
    exists i :: 0 <= i < |VersionsOf(s, p.name)| && VersionsOf(s, p.name)[i] == p.id
  }

  lemma {:induction false} LogMembers(c: Crypto, trusted: set<Bytes>, attempts: seq<Attempt>, name: string,
                                      id: PackageId)
    ensures id in SuccessLog(c, trusted, attempts, name) <==>
            exists k :: 0 <= k < |attempts| && Succeeds(c, trusted, attempts[k]) &&
                        attempts[k].package.name == name && attempts[k].package.id == id
  {
    if attempts != [] {
      var rest := attempts[1..];
      LogMembers(c, trusted, rest, name, id);
      if k :| 0 <= k < |rest| && Succeeds(c, trusted, rest[k]) && rest[k].package.name == name &&
              rest[k].package.id == id {
        assert attempts[k + 1] == rest[k];
      }
      if k :| 0 < k < |attempts| && Succeeds(c, trusted, attempts[k]) && attempts[k].package.name == name &&
              attempts[k].package.id == id {
        assert rest[k - 1] == attempts[k];
      }
    }
  }

  /** A stored package is indexed under its name exactly when some registration of that id and
      name succeeded. A rejected emission alone leaves it stored and unlisted. */
  lemma IndexedExactly(c: Crypto, trusted: set<Bytes>, attempts: seq<Attempt>, p: AppPackage)
    ensures IsIndexed(Run(c, trusted, EMPTY, attempts), p) <==>
            exists k :: 0 <= k < |attempts| && Succeeds(c, trusted, attempts[k]) &&
                        attempts[k].package.name == p.name && attempts[k].package.id == p.id
  {
    VersionsAreTheLog(c, trusted, attempts, p.name);
    LogMembers(c, trusted, attempts, p.name, p.id);
  }

  lemma {:induction false} LastPassedWasAttempted(c: Crypto, trusted: set<Bytes>, attempts: seq<Attempt>, id: PackageId)
    returns (k: nat)
    requires LastPassed(c, trusted, attempts, id).Some?
    ensures k < |attempts| && attempts[k].package == LastPassed(c, trusted, attempts, id).value
    ensures attempts[k].package.id == id && Objection(c, trusted, attempts[k].package).None?
  {
    var last := attempts[|attempts| - 1];
    if last.package.id == id && Objection(c, trusted, last.package).None? {
      k := |attempts| - 1;
    } else {
      k := LastPassedWasAttempted(c, trusted, attempts[..|attempts| - 1], id);
    }
  }

  /** If no emission was rejected, every stored package is indexed under its current name. */
  lemma AllIndexedWithoutRejections(c: Crypto, trusted: set<Bytes>, attempts: seq<Attempt>, id: PackageId)
    requires forall k :: 0 <= k < |attempts| ==> !attempts[k].emission.Rejected?
    requires id in Run(c, trusted, EMPTY, attempts).packages
    ensures IsIndexed(Run(c, trusted, EMPTY, attempts), Run(c, trusted, EMPTY, attempts).packages[id])
  {
    LookupIsLastPassed(c, trusted, attempts, id);
    var k := LastPassedWasAttempted(c, trusted, attempts, id);
    assert Succeeds(c, trusted, attempts[k]);
    IndexedExactly(c, trusted, attempts, attempts[k].package);
  }

  /** One rejected emission: the package can be looked up and is not listed. */
  lemma RejectedEmissionHidesPackage(c: Crypto, trusted: set<Bytes>, p: AppPackage)
    requires Trustworthy(c, trusted, p)
    ensures var s := Run(c, trusted, EMPTY, [Attempt(p, Rejected)]);
            p.id in s.packages && s.packages[p.id] == p && !IsIndexed(s, p)
  {
    assert Run(c, trusted, EMPTY, [Attempt(p, Rejected)]) ==
           Run(c, trusted, Registered(c, trusted, EMPTY, Attempt(p, Rejected)), []);
  }
}
