/**
 Backup components, their serialized form, manifests and encrypted artifacts.  JSON text is taken
 as exact, the digest as the bytes themselves, and the cipher as ideal.
 */
module BackupModel {
  import opened Common
  import opened Listing
  import opened Base64

  // ----- Components -----

  datatype Component = Component(name: string, kind: string, reference: string, payload: seq<Byte>)

  /** The constructor: it checks its arguments and normalizes the name. */
  type Constructor = Component -> Option<Component>

  predicate DistinctNames(cs: seq<Component>) {
    forall i, k | 0 <= i < k < |cs| :: cs[i].name != cs[k].name
  }

  /** Strictly increasing names. */
  predicate Ordered(cs: seq<Component>) {
    forall i, k | 0 <= i < k < |cs| :: Before(cs[i].name, cs[k].name)
  }

  function Inserted(c: Component, cs: seq<Component>): seq<Component> {
    if cs == [] || !Before(cs[0].name, c.name) then [c] + cs else [cs[0]] + Inserted(c, cs[1..])
  }

  /** `sorted(components, key=lambda item: item.name)`. */
  function SortedByName(cs: seq<Component>): seq<Component> {
    if cs == [] then [] else Inserted(cs[0], SortedByName(cs[1..]))
  }

  // ----- Serialization -----

  datatype Record = Record(name: string, kind: string, reference: string, payload: string)

  datatype Plaintext = Records(records: seq<Record>) | Malformed

  function RecordsOf(cs: seq<Component>): seq<Record> {
    if cs == [] then []
    else [Record(cs[0].name, cs[0].kind, cs[0].reference, Encode(cs[0].payload))] + RecordsOf(cs[1..])
  }

  /** `_serialize_components`. */
  function Serialize(cs: seq<Component>): Plaintext { Records(RecordsOf(SortedByName(cs))) }

  function ComponentOf(make: Constructor, r: Record): Option<Component> {
    match Decode(r.payload)
    case None => None
    case Some(payload) =>
      make(Component(r.name, r.kind, r.reference, payload))
  }

  function ComponentsOf(make: Constructor, rs: seq<Record>): Option<seq<Component>> {
    if rs == [] then Some([])
    else match (ComponentOf(make, rs[0]), ComponentsOf(make, rs[1..]))
      case (Some(c), Some(rest)) => Some([c] + rest)
      case _ => None
  }

  /** `_deserialize_components`; none where the source raises. */
  function Deserialize(make: Constructor, p: Plaintext): Option<seq<Component>> {
    if p.Malformed? || p.records == [] then None
    else match ComponentsOf(make, p.records)
      case None => None
      case Some(cs) => if DistinctNames(cs) then Some(SortedByName(cs)) else None
  }

  // ----- Manifests and artifacts -----

  datatype Digest = Digest(bytes: seq<Byte>)

  datatype ComponentDigest = ComponentDigest(name: string, kind: string, reference: string, size: nat, sha256: Digest)

  function DigestOf(c: Component): ComponentDigest {
    ComponentDigest(c.name, c.kind, c.reference, |c.payload|, Digest(c.payload))
  }

  /** `component_digests`. */
  function DigestsOf(cs: seq<Component>): seq<ComponentDigest> {
    var sorted := SortedByName(cs);
    seq(|sorted|, i requires 0 <= i < |sorted| => DigestOf(sorted[i]))
  }

  datatype Manifest = Manifest(
    backupId: string, tenant: string, application: string, destination: string, retentionUntil: nat,
    components: seq<ComponentDigest>, keyReference: string)

  datatype Sealed = Sealed(key: nat, nonce: nat, plaintext: Plaintext, associated: Manifest) | Garbage

  datatype Envelope = Envelope(keyReference: string, nonce: nat, ciphertext: Sealed)

  datatype Encryptor = Encryptor(key: nat, keyReference: string)
  {
    function Encrypt(nonce: nat, p: Plaintext, associated: Manifest): Envelope {
      Envelope(keyReference, nonce, Sealed(key, nonce, p, associated))
    }

    /** None where the source raises. */
    function Decrypt(e: Envelope, associated: Manifest): Option<Plaintext> {
      if e.keyReference == keyReference && e.ciphertext.Sealed? && e.ciphertext.key == key
         && e.ciphertext.nonce == e.nonce && e.ciphertext.associated == associated
      then Some(e.ciphertext.plaintext) else None
    }
  }

  datatype Artifact = Artifact(manifest: Manifest, manifestBytes: Manifest, envelope: Envelope, digest: (Manifest, Envelope))

  /** `BackupArtifact.build`. */
  function Build(m: Manifest, e: Envelope): Artifact { Artifact(m, m, e, (m, e)) }

  predicate Matches(c: Component, d: ComponentDigest) {
    c.kind == d.kind && c.reference == d.reference && |c.payload| == d.size && Digest(c.payload) == d.sha256
  }

  function NamesOf(cs: seq<Component>): set<string> { set c | c in cs :: c.name }

  function DigestNames(ds: seq<ComponentDigest>): set<string> { set d | d in ds :: d.name }

  /** `_verify_artifact`; none where the source raises. */
  function Verify(make: Constructor, e: Encryptor, a: Artifact): Option<seq<Component>> {
    if a.manifestBytes != a.manifest || a.digest != (a.manifestBytes, a.envelope) then None
    else match e.Decrypt(a.envelope, a.manifestBytes)
      case None => None
      case Some(plaintext) =>
        match Deserialize(make, plaintext)
        case None => None
        case Some(cs) =>
          if && DigestNames(a.manifest.components) == NamesOf(cs)
             && forall d, c | d in a.manifest.components && c in cs && c.name == d.name :: Matches(c, d)
          then Some(cs) else None
  }

  /** Components as their constructor leaves them. */
  predicate Constructed(make: Constructor, cs: seq<Component>) {
    forall c | c in cs :: make(c) == Some(c)
  }

  // ----- Restored files -----

  function FileName(c: Component): string { c.name + ".bin" }

  /** The files of the component directory, written in order. */
  function FilesOf(cs: seq<Component>): map<string, seq<Byte>> {
    if cs == [] then map[] else FilesOf(cs[..|cs| - 1])[FileName(cs[|cs| - 1]) := cs[|cs| - 1].payload]
  }
}
