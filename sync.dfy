/** The meaning of draining the update queue into the object store, stated on
    values: the poses of the store's nodes, keyed by object name, with the
    queued records applied one after another in arrival order. */
module Sync {
  import opened Scene

  /** The names carried by a sequence of update records, in order. */
  function PacketNames(q: seq<UpdatePacket>): (names: seq<string>)
    ensures |names| == |q|
    ensures forall i :: 0 <= i < |q| ==> names[i] == q[i].name
  {
    seq(|q|, i requires 0 <= i < |q| => q[i].name)
  }

  /** The names carried by a sequence of object descriptors, in order. */
  function DescriptorNames(ds: seq<ObjectData>): (names: seq<string>)
    ensures |names| == |ds|
    ensures forall i :: 0 <= i < |ds| ==> names[i] == ds[i].name
  {
    seq(|ds|, i requires 0 <= i < |ds| => ds[i].name)
  }

  /** The position of the last occurrence of n in names, or -1 when n does
      not occur. */
  function LastIndex(names: seq<string>, n: string): (i: int)
    ensures -1 <= i < |names|
    ensures i == -1 <==> n !in names
    ensures 0 <= i ==> names[i] == n && forall j :: i < j < |names| ==> names[j] != n
  {
    if names == [] then -1
    else if names[|names| - 1] == n then |names| - 1
    else LastIndex(names[..|names| - 1], n)
  }

  /** Every record of q names an object of the store. */
  predicate AllRegistered(q: seq<UpdatePacket>, names: set<string>)
  {
    forall i :: 0 <= i < |q| ==> q[i].name in names
  }

  /** The pose a record sets. */
  function PoseOf(r: UpdatePacket): Pose
  {
    Pose(r.position, r.orientation)
  }

  /** The poses after the records of q have been applied in arrival order:
      the oldest record first. */
  function ApplyAll(poses: map<string, Pose>, q: seq<UpdatePacket>): (r: map<string, Pose>)
    requires AllRegistered(q, poses.Keys)
    ensures r.Keys == poses.Keys
    decreases |q|
  {
    if q == [] then poses
    else ApplyAll(poses[q[0].name := PoseOf(q[0])], q[1..])
  }

  /** Where the last occurrence of a name sits once one more name is put in
      front. */
  lemma {:induction false} LastIndexCons(x: string, names: seq<string>, n: string)
    ensures LastIndex([x] + names, n) ==
            if LastIndex(names, n) >= 0 then LastIndex(names, n) + 1
            else if x == n then 0
            else -1
    decreases |names|
  {
    if names != [] {
      var front := names[..|names| - 1];
      assert ([x] + names)[..|names|] == [x] + front;
      LastIndexCons(x, front, n);
    }
  }

  /** The names of a nonempty queue: the oldest record's, then the rest's. */
  lemma PacketNamesCons(q: seq<UpdatePacket>)
    requires q != []
    ensures PacketNames(q) == [q[0].name] + PacketNames(q[1..])
  {
    assert forall i :: 0 <= i < |q| - 1 ==> PacketNames(q[1..])[i] == q[i + 1].name;
  }

  /** Applying records in order is last-wins: an object ends at the pose of
      the last record naming it, and an object no record names keeps its pose. */
  lemma {:induction false} LastRecordWins(poses: map<string, Pose>, q: seq<UpdatePacket>, n: string)
    requires AllRegistered(q, poses.Keys) && n in poses
    ensures n !in PacketNames(q) ==> ApplyAll(poses, q)[n] == poses[n]
    ensures n in PacketNames(q) ==> ApplyAll(poses, q)[n] == PoseOf(q[LastIndex(PacketNames(q), n)])
    decreases |q|
  {
    if q != [] {
      var rest, next := q[1..], poses[q[0].name := PoseOf(q[0])];
      PacketNamesCons(q);
      LastIndexCons(q[0].name, PacketNames(rest), n);
      LastRecordWins(next, rest, n);
      var j := LastIndex(PacketNames(rest), n);
      if j >= 0 {
        assert rest[j] == q[j + 1];
      }
    }
  }

  /** Applying q1 and then q2 gives the same poses as applying q1 + q2. */
  lemma {:induction false} ApplyAllSplit(poses: map<string, Pose>, q1: seq<UpdatePacket>, q2: seq<UpdatePacket>)
    requires AllRegistered(q1 + q2, poses.Keys)
    ensures AllRegistered(q1, poses.Keys)
    ensures AllRegistered(q2, ApplyAll(poses, q1).Keys)
    ensures ApplyAll(poses, q1 + q2) == ApplyAll(ApplyAll(poses, q1), q2)
    decreases |q1|
  {
    assert forall i :: 0 <= i < |q1| ==> q1[i] == (q1 + q2)[i];
    assert forall i :: 0 <= i < |q2| ==> q2[i] == (q1 + q2)[|q1| + i];
    if q1 == [] {
      assert q1 + q2 == q2;
    } else {
      assert (q1 + q2)[1..] == q1[1..] + q2;
      ApplyAllSplit(poses[q1[0].name := PoseOf(q1[0])], q1[1..], q2);
    }
  }

  /** Growing a prefix of names by one: the added name becomes the last
      occurrence of itself, every other name keeps its last occurrence. */
  lemma PrefixStep(names: seq<string>, k: nat, n: string)
    requires k < |names|
    ensures n in names[..k + 1] <==> n in names[..k] || names[k] == n
    ensures LastIndex(names[..k + 1], n) == if names[k] == n then k else LastIndex(names[..k], n)
  {
    assert names[..k + 1][..k] == names[..k];
  }
}
