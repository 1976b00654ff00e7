/** The meaning of parseObjectData stated on values: what the object store
    and the world's list of bodies hold after the descriptors have been
    parsed one by one, each replacing any entry of its name. */
module Population {
  import opened Scene
  import opened Sync

  /** What the store st holds under n, given the index i of the last
      descriptor of ds carrying n (-1 when none does): the entry s0 had, or
      an entry built from that descriptor whose body is the i-th body added
      to the world wd after its first w0. */
  predicate StoredFrom(st: map<string, StoreEntry>, wd: seq<RigidBody>, s0: map<string, StoreEntry>,
                       ds: seq<ObjectData>, w0: nat, n: string, i: int)
  {
    n in st && i < |ds| &&
    if i < 0 then n in s0 && st[n] == s0[n]
    else BuiltFrom(st[n], ds[i]) && w0 + i < |wd| && st[n].body == wd[w0 + i]
  }

  /** What parsing the first k descriptors of ds leaves, starting from the
      store s0 and a world of w0 bodies: one new body per descriptor, with
      that descriptor's mass; the names of s0 and of those descriptors
      stored, and no other; each stored name as StoredFrom describes it. */
  ghost predicate Populated(st: map<string, StoreEntry>, wd: seq<RigidBody>, s0: map<string, StoreEntry>,
                      ds: seq<ObjectData>, w0: nat, k: nat)
  {
    && k <= |ds| && |wd| == w0 + k
    && (forall i :: 0 <= i < k ==> wd[w0 + i].mass == ds[i].mass)
    && (forall n :: n in st <==> n in s0 || n in DescriptorNames(ds)[..k])
    && (forall n :: n in st ==> StoredFrom(st, wd, s0, ds, w0, n, LastIndex(DescriptorNames(ds)[..k], n)))
  }

  /** Nothing parsed yet: the store is s0 and the world has its w0 bodies. */
  lemma PopulatedStart(s0: map<string, StoreEntry>, wd: seq<RigidBody>, ds: seq<ObjectData>)
    ensures Populated(s0, wd, s0, ds, |wd|, 0)
  {
    assert DescriptorNames(ds)[..0] == [];
  }

  /** One name across the parse of the k-th descriptor: the name it
      carries now holds the new entry e, found at the new last position k;
      any other name keeps both its entry and its last position. */
  lemma StoredFromStep(st: map<string, StoreEntry>, wd: seq<RigidBody>, s0: map<string, StoreEntry>,
                       ds: seq<ObjectData>, w0: nat, k: nat, e: StoreEntry, n: string)
    requires k < |ds| && |wd| == w0 + k && BuiltFrom(e, ds[k])
    requires n in st ==> StoredFrom(st, wd, s0, ds, w0, n, LastIndex(DescriptorNames(ds)[..k], n))
    requires n in st || n == ds[k].name
    ensures StoredFrom(st[ds[k].name := e], wd + [e.body], s0, ds, w0, n, LastIndex(DescriptorNames(ds)[..k + 1], n))
  {
    var names := DescriptorNames(ds);
    PrefixStep(names, k, n);
    if n != ds[k].name {
      var i := LastIndex(names[..k], n);
      if i >= 0 {
        assert (wd + [e.body])[w0 + i] == wd[w0 + i];
      }
    }
  }

  /** Parsing the k-th descriptor: storing an entry e built from it under
      its name and adding e's body to the world extends what held for the
      first k descriptors to the first k + 1. */
  lemma PopulatedStep(st: map<string, StoreEntry>, wd: seq<RigidBody>, s0: map<string, StoreEntry>,
                      ds: seq<ObjectData>, w0: nat, k: nat, e: StoreEntry)
    requires Populated(st, wd, s0, ds, w0, k)
    requires k < |ds| && BuiltFrom(e, ds[k])
    ensures Populated(st[ds[k].name := e], wd + [e.body], s0, ds, w0, k + 1)
  {
    var names := DescriptorNames(ds);
    var st', wd' := st[ds[k].name := e], wd + [e.body];
    forall i | 0 <= i < k + 1 ensures wd'[w0 + i].mass == ds[i].mass {
      if i < k {
        assert wd'[w0 + i] == wd[w0 + i];
      }
    }
    forall n ensures n in st' <==> n in s0 || n in names[..k + 1] {
      PrefixStep(names, k, n);
    }
    forall n | n in st' ensures StoredFrom(st', wd', s0, ds, w0, n, LastIndex(names[..k + 1], n)) {
      StoredFromStep(st, wd, s0, ds, w0, k, e, n);
    }
  }

  /** All descriptors parsed: the world gained exactly one body per
      descriptor; a name no descriptor carries keeps its entry of s0; a name
      some descriptor carries ends with an entry built from the last such
      descriptor, holding the body added for that descriptor. */
  lemma PopulatedAll(st: map<string, StoreEntry>, wd: seq<RigidBody>, s0: map<string, StoreEntry>,
                     ds: seq<ObjectData>, w0: nat, n: string)
    requires Populated(st, wd, s0, ds, w0, |ds|)
    ensures |wd| == w0 + |ds|
    ensures n in st <==> n in s0 || n in DescriptorNames(ds)
    ensures n in st && n !in DescriptorNames(ds) ==> st[n] == s0[n]
    ensures n in DescriptorNames(ds) ==>
              && BuiltFrom(st[n], ds[LastIndex(DescriptorNames(ds), n)])
              && st[n].body == wd[w0 + LastIndex(DescriptorNames(ds), n)]
  {
    var names := DescriptorNames(ds);
    assert names[..|ds|] == names;
    if n in st {
      assert StoredFrom(st, wd, s0, ds, w0, n, LastIndex(names, n));
    }
  }
}
