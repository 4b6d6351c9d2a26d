/** Exactly which artifacts verify, and to what: nothing forged, altered or described otherwise. */
module BackupAuthenticity {
  import opened Common
  import opened Listing
  import opened Base64
  import opened BackupModel
  import opened BackupGuarantees
  import opened BackupRestore

  /** The records, in their order, are accepted by the constructor as these components. */
  ghost predicate ReadAs(make: Constructor, records: seq<Record>, cs: seq<Component>) {
    && |records| == |cs|
    && forall i | 0 <= i < |cs| ::
         && Decode(records[i].payload).Some?
         && make(Component(records[i].name, records[i].kind, records[i].reference, Decode(records[i].payload).value))
            == Some(cs[i])
  }

  lemma {:induction false} ReadingIsUnique(make: Constructor, records: seq<Record>, cs: seq<Component>)
    ensures ComponentsOf(make, records) == Some(cs) <==> ReadAs(make, records, cs)
    decreases |records|
  {
    if records != [] {
      if cs == [] {
        assert !ReadAs(make, records, cs);
        if ComponentsOf(make, records).Some? { assert |ComponentsOf(make, records).value| > 0; }
      } else {
        ReadingIsUnique(make, records[1..], cs[1..]);
        assert cs == [cs[0]] + cs[1..];
        hide Decode;
        assert forall i | 0 <= i < |records| - 1 :: records[1..][i] == records[i + 1];
        assert forall i | 0 <= i < |cs| - 1 :: cs[1..][i] == cs[i + 1];
        FirstRead(make, records, cs);
      }
    }
  }

  lemma FirstRead(make: Constructor, records: seq<Record>, cs: seq<Component>)
    requires records != [] && cs != []
    ensures ReadAs(make, records, cs) <==> ComponentOf(make, records[0]) == Some(cs[0]) && ReadAs(make, records[1..], cs[1..])
  {
    hide Decode;
    if |records| == |cs| {
      assert forall i | 0 < i < |cs| :: records[i] == records[1..][i - 1] && cs[i] == cs[1..][i - 1];
    }
  }

  /** Every component is listed, and nothing else. */
  ghost predicate SameNames(cs: seq<Component>, ds: seq<ComponentDigest>) {
    && (forall c | c in cs :: exists d :: d in ds && d.name == c.name)
    && (forall d | d in ds :: exists c :: c in cs && c.name == d.name)
  }

  /** The manifest lists these components by name, each as it is. */
  ghost predicate Described(cs: seq<Component>, ds: seq<ComponentDigest>) {
    && SameNames(cs, ds)
    && (forall c, d | c in cs && d in ds && d.name == c.name ::
          d.kind == c.kind && d.reference == c.reference && d.size == |c.payload| && d.sha256 == Digest(c.payload))
  }

  lemma NamedComponent(cs: seq<Component>, n: string)
    ensures n in NamesOf(cs) <==> exists c :: c in cs && c.name == n
  {
  }

  lemma NamedDigest(ds: seq<ComponentDigest>, n: string)
    ensures n in DigestNames(ds) <==> exists d :: d in ds && d.name == n
  {
  }

  lemma NamesAgree(cs: seq<Component>, ds: seq<ComponentDigest>)
    ensures SameNames(cs, ds) <==> DigestNames(ds) == NamesOf(cs)
  {
    hide NamesOf, DigestNames;
    if DigestNames(ds) == NamesOf(cs) {
      forall c | c in cs ensures exists d :: d in ds && d.name == c.name {
        NamedComponent(cs, c.name);
        NamedDigest(ds, c.name);
      }
      forall d | d in ds ensures exists c :: c in cs && c.name == d.name {
        NamedDigest(ds, d.name);
        NamedComponent(cs, d.name);
      }
    }
    if SameNames(cs, ds) {
      forall n ensures n in NamesOf(cs) <==> n in DigestNames(ds) {
        NamedComponent(cs, n);
        NamedDigest(ds, n);
      }
    }
  }

  lemma DescribedMeansMatched(cs: seq<Component>, ds: seq<ComponentDigest>)
    ensures Described(cs, ds) <==>
              && DigestNames(ds) == NamesOf(cs)
              && forall d, c | d in ds && c in cs && c.name == d.name :: Matches(c, d)
  {
    NamesAgree(cs, ds);
    hide NamesOf, DigestNames, SameNames;
  }

  /** The envelope was sealed with this key, under this very manifest, around these records. */
  predicate SealedAround(e: Encryptor, a: Artifact, records: seq<Record>) {
    a.envelope ==
      Envelope(e.keyReference, a.envelope.nonce, Sealed(e.key, a.envelope.nonce, Records(records), a.manifest))
  }

  /** What the artifact holds, whoever made it. */
  ghost predicate Holds(make: Constructor, e: Encryptor, a: Artifact, read: seq<Component>) {
    exists records :: records != [] && SealedAround(e, a, records) && ReadAs(make, records, read)
  }

  lemma DecryptedIsSealed(e: Encryptor, a: Artifact, p: Plaintext)
    requires a.manifestBytes == a.manifest
    ensures e.Decrypt(a.envelope, a.manifestBytes) == Some(p) <==>
              a.envelope == Envelope(e.keyReference, a.envelope.nonce, Sealed(e.key, a.envelope.nonce, p, a.manifest))
  {
  }

  /** An artifact verifies, to these components, exactly when its manifest and digest are its own, it was
      sealed with this key under this manifest, and what it holds has distinct names, is these components
      in name order, and is what the manifest describes. */
  lemma VerifiedExactly(make: Constructor, e: Encryptor, a: Artifact, cs: seq<Component>)
    ensures Verify(make, e, a) == Some(cs) <==>
              && a.manifestBytes == a.manifest && a.digest == (a.manifest, a.envelope)
              && (exists read :: Holds(make, e, a, read) && DistinctNames(read) && multiset(read) == multiset(cs))
              && Ordered(cs) && Described(cs, a.manifest.components)
  {
    DescribedMeansMatched(cs, a.manifest.components);
    hide Described, Matches, DigestNames, NamesOf, ReadAs, Ordered, ComponentsOf, SortedByName, DistinctNames;
    if Verify(make, e, a) == Some(cs) {
      VerifiedIsOrdered(make, e, a);
      var p := e.Decrypt(a.envelope, a.manifestBytes).value;
      DecryptedIsSealed(e, a, p);
      var read := ComponentsOf(make, p.records).value;
      ReadingIsUnique(make, p.records, read);
      assert SealedAround(e, a, p.records);
      assert Holds(make, e, a, read);
      SortedElements(read);
    }
    if && a.manifestBytes == a.manifest && a.digest == (a.manifest, a.envelope)
       && (exists read :: Holds(make, e, a, read) && DistinctNames(read) && multiset(read) == multiset(cs))
       && Ordered(cs) && Described(cs, a.manifest.components)
    {
      var read :| Holds(make, e, a, read) && DistinctNames(read) && multiset(read) == multiset(cs);
      var records :| records != [] && SealedAround(e, a, records) && ReadAs(make, records, read);
      DecryptedIsSealed(e, a, Records(records));
      ReadingIsUnique(make, records, read);
      SortedIs(read, cs);
    }
  }

  lemma SortedIs(read: seq<Component>, cs: seq<Component>)
    requires DistinctNames(read) && multiset(read) == multiset(cs) && Ordered(cs)
    ensures SortedByName(read) == cs
  {
    SortedOrdered(read);
    SortedElements(read);
    hide DistinctNames, Ordered, SortedByName;
    forall c ensures c in SortedByName(read) <==> c in cs {
      assert c in SortedByName(read) <==> c in multiset(SortedByName(read));
      assert c in cs <==> c in multiset(cs);
    }
    OrderedIsUnique(SortedByName(read), cs);
  }

  // ----- Restoring -----

  /** The vault has an artifact for exactly this restore, it verifies to these components, and no
      directory of that name is there yet. */
  predicate Restorable(make: Constructor, area: Area, a: Attempt, cs: seq<Component>) {
    && (a.tenant, a.application, a.backupId) in a.artifacts
    && var artifact := a.artifacts[(a.tenant, a.application, a.backupId)];
    && artifact.manifest.tenant == a.tenant && artifact.manifest.application == a.application
    && artifact.manifest.backupId == a.backupId && artifact.manifest.destination == a.destination
    && Verify(make, a.encryptor, artifact) == Some(cs)
    && a.backupId !in area.restored && a.backupId !in area.staging
  }

  predicate Lists(names: seq<string>, cs: seq<Component>) {
    |names| == |cs| && forall k | 0 <= k < |cs| :: names[k] == cs[k].name
  }

  /** What an attempt does: nothing but fail when there is nothing to restore; the complete directory when
      it is not interrupted up to the rename, reported with the component names unless the process dies
      right after or the clock has no time zone; and no directory otherwise, reported as a failure when
      an exception was raised and its cleanup completed. */
  lemma AttemptsExactly(make: Constructor, area: Area, a: Attempt)
    ensures var (after, evidence) := AttemptRestore(make, area, a);
            && ((forall cs: seq<Component> :: !Restorable(make, area, a, cs)) ==> after == area && evidence == Some(RestoreFailed))
            && forall cs: seq<Component> | Restorable(make, area, a, cs) ::
                 var i, renames := a.interruption, |cs| + 2;
                 && (i.Never? || i.at > renames ==>
                       && after == area.(restored := area.restored[a.backupId := Directory(Some(FilesOf(cs)))])
                       && (if i.Dies? && i.at == renames + 1 then evidence == None
                           else if a.zoned then evidence.Some? && evidence.value.Restored? && Lists(evidence.value.names, cs)
                           else evidence == Some(RestoreFailed)))
                 && (!i.Never? && i.at <= renames ==>
                       && after.restored == area.restored
                       && evidence == (if i.Raises? && (i.at == 0 || i.cleanup.Completes?) then Some(RestoreFailed) else None)
                       && (i.at == 0 || (i.Raises? && i.cleanup.Completes?) ==> after == area))
  {
    hide Verify, FilesOf;
    var (after, evidence) := AttemptRestore(make, area, a);
    if Begins(make, area, a) {
      assert Restorable(make, area, a, Verified(make, a).value);
    }
    forall cs | Restorable(make, area, a, cs) ensures Begins(make, area, a) && Verified(make, a) == Some(cs) {}
  }

  /** The component directory an interrupted attempt had made: none before its second call, then the
      files of the components written so far, and what the interrupted write left of the next. */
  predicate WrittenSoFar(cs: seq<Component>, i: Interruption, components: Option<Files>)
    requires !i.Never? && 1 <= i.at <= |cs| + 2
  {
    if i.at == 1 then components == None
    else
      var whole := FilesOf(cs[..i.at - 2]);
      components == Some(if i.at < |cs| + 2 && i.torn.Some? then whole[cs[i.at - 2].name + ".bin" := i.torn.value] else whole)
  }

  /** What an attempt leaves behind when it stops in its staging directory and nobody clears it: what it
      had written, or what a clearing cut short had not yet removed of that. */
  lemma LeftBehind(make: Constructor, area: Area, a: Attempt, cs: seq<Component>) returns (written: Option<Files>)
    requires Restorable(make, area, a, cs) && !a.interruption.Never? && 1 <= a.interruption.at <= |cs| + 2
    requires a.interruption.Raises? ==> a.interruption.cleanup.Stops?
    ensures WrittenSoFar(cs, a.interruption, written)
    ensures var after := AttemptRestore(make, area, a).0;
            && a.backupId in after.staging
            && after == area.(staging := area.staging[a.backupId := after.staging[a.backupId]])
            && after.staging[a.backupId].components ==
                 if a.interruption.Dies? || written == None then written
                 else if a.interruption.cleanup.emptied then None
                 else Some(written.value - a.interruption.cleanup.dropped)
  {
    hide Verify, FilesOf;
    written := Partial(cs, a.interruption).components;
    assert Verified(make, a) == Some(cs);
  }
}
