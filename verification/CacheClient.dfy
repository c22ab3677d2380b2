/** The reference client: it polls the ring ConfigMap and answers lookups from the loaded ring. */
module CacheClient {
  import opened Basics
  import opened HashRing

  /**
   The ring ConfigMap: missing, without data, with data but no ring key, with an unreadable
   payload, or holding a ring.
   */
  datatype RingStore = Absent | Empty | NoRingKey | Undecodable | Decoded(ring: Ring)

  /** What a poll does to the loaded ring: an equal version is skipped, an error changes nothing. */
  function Load(loaded: Option<Ring>, got: RingStore): (r: Option<Ring>)
    ensures got.Decoded? ==> r.Some? && r.value.version == got.ring.version
    ensures r == loaded || (got.Decoded? && r == Some(got.ring))
  {
    if !got.Decoded? then loaded
    else if loaded.Some? && loaded.value.version == got.ring.version then loaded
    else Some(got.ring)
  }

  datatype LookupResult = RingEmpty | Found(host: string)

  class Client {
    const hash: Hash
    const serviceFqdn: string
    const pollInterval: int

    /** The atomic pointer to the resolved ring. */
    var ring: Option<HashRing>

    /** The published ring that `ring` resolves. */
    ghost var loaded: Option<Ring>

    ghost predicate Valid()
      reads this
    {
      match (ring, loaded)
      case (None, None) => true
      case (Some(built), Some(r)) => Resolves(hash, built, r)
      case _ => false
    }

    /** An interval of zero stands for the default of ten seconds. */
    constructor (hash: Hash, serviceFqdn: string, pollInterval: int)
      ensures Valid() && loaded == None
      ensures this.hash == hash && this.serviceFqdn == serviceFqdn
      ensures this.pollInterval != 0 && this.pollInterval in {pollInterval, 10 * SECOND}
      ensures pollInterval != 0 ==> this.pollInterval == pollInterval
    {
      this.hash := hash;
      this.serviceFqdn := serviceFqdn;
      this.pollInterval := if pollInterval == 0 then 10 * SECOND else pollInterval;
      ring := None;
      loaded := None;
    }

    /** One poll that read `got`, or whose read failed. */
    method PollOnce(got: Option<RingStore>) returns (ok: bool)
      requires Valid()
      modifies this
      ensures Valid()
      ensures ok <==> got.Some? && got.value.Decoded?
      ensures loaded == if got.Some? then Load(old(loaded), got.value) else old(loaded)
      ensures ok ==> ring.Some? && ring.value.version == got.value.ring.version
      ensures !ok || (old(ring).Some? && old(ring).value.version == got.value.ring.version) ==> ring == old(ring)
      ensures ring != old(ring) ==> loaded == Some(got.value.ring)
    {
      if got.None? { return false; }
      if !got.value.Decoded? { return false; }
      var r := got.value.ring;
      if ring.Some? && ring.value.version == r.version {
        return true;
      }
      var built := BuildRing(hash, r);
      ring := Some(built);
      loaded := Some(r);
      return true;
    }

    /**
     A lookup reads the pointer once and answers with the owner of a clockwise-nearest virtual
     node of the loaded ring, or reports an empty ring.
     */
    method Lookup(key: string) returns (result: LookupResult)
      requires Valid()
      ensures result.RingEmpty? <==> loaded.None? || loaded.value.members == []
      ensures result.Found? ==> exists pod :: result.host == pod + "." + serviceFqdn
                                           && Owns(hash, loaded.value.members, hash(key), pod)
    {
      var r := ring;
      if r.None? || |r.value.hashes| == 0 {
        if r.Some? { EmptyRing(hash, r.value, loaded.value); }
        return RingEmpty;
      }
      EmptyRing(hash, r.value, loaded.value);
      var pod := Search(r.value, hash(key));
      AnswerOwns(hash, r.value, loaded.value, hash(key), pod.value);
      return Found(pod.value + "." + serviceFqdn);
    }

    method RingVersion() returns (version: int)
      requires Valid()
      ensures version == if loaded.Some? then loaded.value.version else 0
    {
      var r := ring;
      return if r.Some? then r.value.version else 0;
    }
  }

  /** A resolved ring is empty exactly when the published one is. */
  lemma EmptyRing(h: Hash, built: HashRing, r: Ring)
    requires Resolves(h, built, r)
    ensures built.hashes == [] <==> r.members == []
  {
    ResolvedVNodes(h, built, r);
    if r.members != [] {
      var v := VNodeOf(h, r.members[0], 0);
      assert IsVNode(h, r.members, v);
    }
    if built.hashes != [] {
      assert IsVNode(h, r.members, VNode(built.hashes[0], built.positions[0]));
    }
  }
}
