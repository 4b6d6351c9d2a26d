/** What is restored is what was backed up. */
module BackupGuarantees {
  import opened Common
  import opened Listing
  import opened Base64
  import opened BackupModel

  // ----- Sorting -----

  lemma {:induction false} InsertedElements(c: Component, cs: seq<Component>)
    ensures multiset(Inserted(c, cs)) == multiset(cs) + multiset{c}
  {
    if cs != [] && Before(cs[0].name, c.name) {
      InsertedElements(c, cs[1..]);
      assert cs == [cs[0]] + cs[1..];
    } else {
      assert [c] + cs == Inserted(c, cs);
    }
  }

  lemma {:induction false} SortedElements(cs: seq<Component>)
    ensures multiset(SortedByName(cs)) == multiset(cs) && |SortedByName(cs)| == |cs|
  {
    if cs != [] {
      SortedElements(cs[1..]);
      InsertedElements(cs[0], SortedByName(cs[1..]));
      assert cs == [cs[0]] + cs[1..];
    }
    assert |multiset(SortedByName(cs))| == |SortedByName(cs)|;
  }

  lemma SortedMembers(cs: seq<Component>)
    ensures forall c :: c in SortedByName(cs) <==> c in cs
  {
    SortedElements(cs);
    assert forall c :: c in SortedByName(cs) <==> c in multiset(SortedByName(cs));
    assert forall c :: c in cs <==> c in multiset(cs);
  }

  lemma {:induction false} InsertedOrdered(c: Component, cs: seq<Component>)
    requires Ordered(cs) && forall d | d in cs :: d.name != c.name
    ensures Ordered(Inserted(c, cs))
    ensures forall d :: d in Inserted(c, cs) <==> d == c || d in cs
  {
    if cs != [] {
      assert cs[0] in cs;
      BeforeIsTotal(cs[0].name, c.name);
      if Before(cs[0].name, c.name) {
        assert cs == [cs[0]] + cs[1..];
        InsertedOrdered(c, cs[1..]);
        assert forall d | d in Inserted(c, cs[1..]) :: Before(cs[0].name, d.name);
      } else {
        forall k | 0 <= k < |cs| ensures Before(c.name, cs[k].name) {
          if k > 0 { BeforeIsTransitive(c.name, cs[0].name, cs[k].name); }
        }
      }
    }
  }

  lemma {:induction false} SortedOrdered(cs: seq<Component>)
    requires DistinctNames(cs)
    ensures Ordered(SortedByName(cs))
  {
    if cs != [] {
      SortedOrdered(cs[1..]);
      SortedMembers(cs[1..]);
      InsertedOrdered(cs[0], SortedByName(cs[1..]));
    }
  }

  lemma OrderedIsDistinct(cs: seq<Component>)
    requires Ordered(cs)
    ensures DistinctNames(cs)
  {
    forall i, k | 0 <= i < k < |cs| ensures cs[i].name != cs[k].name { BeforeIsIrreflexive(cs[i].name); }
  }

  lemma FirstIsSmallest(cs: seq<Component>, c: Component)
    requires Ordered(cs) && c in cs && c != cs[0]
    ensures Before(cs[0].name, c.name)
  {
  }

  /** An ordered sequence is determined by its elements. */
  lemma {:induction false} OrderedIsUnique(a: seq<Component>, b: seq<Component>)
    requires Ordered(a) && Ordered(b) && forall c :: c in a <==> c in b
    ensures a == b
    decreases |a|
  {
    assert b != [] ==> exists c :: c in b by { if b != [] { assert b[0] in b; } }
    if a != [] {
      assert a[0] in b;
      assert b[0] in a;
      if a[0] != b[0] {
        FirstIsSmallest(a, b[0]);
        FirstIsSmallest(b, a[0]);
        BeforeIsTransitive(a[0].name, b[0].name, a[0].name);
        BeforeIsIrreflexive(a[0].name);
      }
      TailElements(a);
      TailElements(b);
      OrderedIsUnique(a[1..], b[1..]);
      assert a == [a[0]] + a[1..] && b == [b[0]] + b[1..];
    }
  }

  lemma TailElements(a: seq<Component>)
    requires Ordered(a) && a != []
    ensures forall c :: c in a[1..] <==> c in a && c != a[0]
  {
    OrderedIsDistinct(a);
    assert a == [a[0]] + a[1..];
  }

  /** The serialized form does not depend on the order of the components. */
  lemma SerializationIgnoresOrder(cs: seq<Component>, ds: seq<Component>)
    requires DistinctNames(cs) && DistinctNames(ds) && multiset(cs) == multiset(ds)
    ensures Serialize(cs) == Serialize(ds)
  {
    SortedOrdered(cs);
    SortedOrdered(ds);
    SortedElements(cs);
    SortedElements(ds);
    assert forall c :: c in SortedByName(cs) <==> c in multiset(SortedByName(cs));
    assert forall c :: c in SortedByName(ds) <==> c in multiset(SortedByName(ds));
    OrderedIsUnique(SortedByName(cs), SortedByName(ds));
  }

  // ----- Serialization -----

  lemma {:induction false} RecordsReadBack(make: Constructor, cs: seq<Component>)
    requires Constructed(make, cs)
    ensures ComponentsOf(make, RecordsOf(cs)) == Some(cs) && |RecordsOf(cs)| == |cs|
  {
    if cs != [] {
      RoundTrip(cs[0].payload);
      RecordsReadBack(make, cs[1..]);
      assert RecordsOf(cs)[1..] == RecordsOf(cs[1..]);
      assert cs == [cs[0]] + cs[1..];
    }
  }

  lemma SortingIsIdempotent(cs: seq<Component>)
    requires Ordered(cs)
    ensures SortedByName(cs) == cs
  {
    OrderedIsDistinct(cs);
    SortedOrdered(cs);
    SortedMembers(cs);
    OrderedIsUnique(SortedByName(cs), cs);
  }

  /** Deserializing what was serialized gives the components in name order. */
  lemma ComponentsReadBack(make: Constructor, cs: seq<Component>)
    requires cs != [] && DistinctNames(cs) && Constructed(make, cs)
    ensures Deserialize(make, Serialize(cs)) == Some(SortedByName(cs))
  {
    var sorted := SortedByName(cs);
    SortedElements(cs);
    SortedMembers(cs);
    SortedOrdered(cs);
    OrderedIsDistinct(sorted);
    RecordsReadBack(make, sorted);
    SortingIsIdempotent(sorted);
  }

  // ----- Verification -----

  lemma DigestsCover(cs: seq<Component>)
    ensures forall c | c in cs :: DigestOf(c) in DigestsOf(cs)
    ensures forall d | d in DigestsOf(cs) :: exists c :: c in cs && d == DigestOf(c)
  {
    SortedMembers(cs);
    var sorted := SortedByName(cs);
    forall c | c in cs ensures DigestOf(c) in DigestsOf(cs) {
      var i :| 0 <= i < |sorted| && sorted[i] == c;
      assert DigestsOf(cs)[i] == DigestOf(c);
    }
    forall d | d in DigestsOf(cs) ensures exists c :: c in cs && d == DigestOf(c) {
      var i :| 0 <= i < |sorted| && DigestsOf(cs)[i] == d;
      assert sorted[i] in cs;
    }
  }

  lemma SameNameSameComponent(cs: seq<Component>, c: Component, d: Component)
    requires DistinctNames(cs) && c in cs && d in cs && c.name == d.name
    ensures c == d
  {
  }

  /** Whatever the vault returns, an artifact that verifies against the manifest of some components
      yields exactly those components, in name order. */
  lemma VerifiedMeansOriginal(make: Constructor, e: Encryptor, a: Artifact, cs: seq<Component>)
    requires DistinctNames(cs) && a.manifest.components == DigestsOf(cs) && Verify(make, e, a).Some?
    ensures Verify(make, e, a).value == SortedByName(cs)
  {
    var rs := Verify(make, e, a).value;
    VerifiedIsOrdered(make, e, a);
    DigestsCover(cs);
    SortedMembers(cs);
    SortedOrdered(cs);
    hide Deserialize, SortedByName, Ordered, DigestsOf;
    forall r | r in rs ensures r in cs {
      assert r.name in NamesOf(rs);
      var d :| d in DigestsOf(cs) && d.name == r.name;
      var c :| c in cs && d == DigestOf(c);
      assert Matches(r, d);
      assert r == c;
    }
    forall c | c in cs ensures c in rs {
      assert DigestOf(c) in DigestsOf(cs);
      assert c.name in DigestNames(DigestsOf(cs));
      var r :| r in rs && r.name == c.name;
      SameNameSameComponent(cs, r, c);
    }
    OrderedIsUnique(rs, SortedByName(cs));
  }

  lemma VerifiedIsOrdered(make: Constructor, e: Encryptor, a: Artifact)
    requires Verify(make, e, a).Some?
    ensures Ordered(Verify(make, e, a).value) && Verify(make, e, a).value != []
  {
    var p := e.Decrypt(a.envelope, a.manifestBytes).value;
    var cs := ComponentsOf(make, p.records).value;
    SortedOrdered(cs);
    SortedElements(cs);
  }

  /** The artifact `create_backup` builds verifies. */
  lemma BuiltArtifactVerifies(make: Constructor, e: Encryptor, m: Manifest, cs: seq<Component>, nonce: nat)
    requires cs != [] && DistinctNames(cs) && Constructed(make, cs) && m.components == DigestsOf(cs)
    ensures Verify(make, e, Build(m, e.Encrypt(nonce, Serialize(cs), m))) == Some(SortedByName(cs))
  {
    ComponentsReadBack(make, cs);
    DigestsCover(cs);
    SortedMembers(cs);
    hide Deserialize, Serialize, SortedByName, DigestsOf;
    var sorted := SortedByName(cs);
    forall d, c | d in m.components && c in sorted && c.name == d.name ensures Matches(c, d) {
      var k :| k in cs && d == DigestOf(k);
      SameNameSameComponent(cs, k, c);
    }
    assert DigestNames(m.components) == NamesOf(sorted) by {
      forall n | n in DigestNames(m.components) ensures n in NamesOf(sorted) {
        var d :| d in m.components && d.name == n;
        var c :| c in cs && d == DigestOf(c);
        assert c in sorted;
      }
      forall n | n in NamesOf(sorted) ensures n in DigestNames(m.components) {
        var c :| c in sorted && c.name == n;
        assert DigestOf(c) in m.components;
      }
    }
  }

  // ----- Files -----

  lemma SameFileSameName(a: Component, b: Component)
    ensures FileName(a) == FileName(b) <==> a.name == b.name
  {
    if FileName(a) == FileName(b) {
      assert |a.name| == |b.name|;
      assert a.name == FileName(a)[..|a.name|] && b.name == FileName(b)[..|b.name|];
    }
  }

  /** One file for each component, with the component's bytes, and no other file. */
  lemma {:induction false} FilesAreComponents(cs: seq<Component>)
    requires DistinctNames(cs)
    ensures |FilesOf(cs)| == |cs|
    ensures forall c | c in cs :: FileName(c) in FilesOf(cs) && FilesOf(cs)[FileName(c)] == c.payload
    ensures forall n | n in FilesOf(cs) :: exists c :: c in cs && n == FileName(c)
  {
    if cs != [] {
      var last, rest := cs[|cs| - 1], cs[..|cs| - 1];
      FilesAreComponents(rest);
      assert cs == rest + [last];
      hide FileName;
      forall c | c in rest ensures FileName(c) != FileName(last) { SameFileSameName(c, last); }
      assert FileName(last) !in FilesOf(rest);
      assert FilesOf(cs).Keys == FilesOf(rest).Keys + {FileName(last)};
      assert |FilesOf(cs)| == |FilesOf(cs).Keys| && |FilesOf(rest)| == |FilesOf(rest).Keys|;
    }
  }

  /** The files restored from a verified artifact are the components it was made from, one file each
      with the original bytes. */
  lemma RestoredFilesAreOriginal(make: Constructor, e: Encryptor, a: Artifact, cs: seq<Component>)
    requires DistinctNames(cs) && a.manifest.components == DigestsOf(cs) && Verify(make, e, a).Some?
    ensures var files := FilesOf(Verify(make, e, a).value);
            && |files| == |cs|
            && (forall c | c in cs :: FileName(c) in files && files[FileName(c)] == c.payload)
            && (forall n | n in files :: exists c :: c in cs && n == FileName(c))
  {
    VerifiedMeansOriginal(make, e, a, cs);
    SortedElements(cs);
    SortedMembers(cs);
    SortedOrdered(cs);
    OrderedIsDistinct(SortedByName(cs));
    FilesAreComponents(SortedByName(cs));
    hide Verify, SortedByName, FilesOf;
    var sorted := SortedByName(cs);
    forall n | n in FilesOf(sorted) ensures exists c :: c in cs && n == FileName(c) {
      var c :| c in sorted && n == FileName(c);
      assert c in cs;
    }
  }
}
