/** The hash slot of a key (get_cluster_slot of src/cluster.c), against the "Hash tags"
    section of the Redis Cluster Specification. */
module HashSlot {
  import opened Crc16

  const OPEN: bv8 := 0x7B
  const CLOSE: bv8 := 0x7D

  ghost predicate Absent(c: bv8, key: seq<bv8>, from: nat, to: nat)
    requires to <= |key|
  {
    forall i | from <= i < to :: key[i] != c
  }

  // key[s] is the first opening brace, key[e] the first closing brace to its right,
  // and there is something in between.
  ghost predicate IsTag(key: seq<bv8>, s: nat, e: nat) {
    && s + 1 < e < |key|
    && key[s] == OPEN && Absent(OPEN, key, 0, s)
    && key[e] == CLOSE && Absent(CLOSE, key, s + 1, e)
  }

  lemma TagIsUnique(key: seq<bv8>, s: nat, e: nat, s': nat, e': nat)
    requires IsTag(key, s, e) && IsTag(key, s', e')
    ensures s == s' && e == e'
  {
  }

  // The part of the key that is hashed.
  ghost function HashedPart(key: seq<bv8>): seq<bv8> {
    if exists s: nat, e: nat :: IsTag(key, s, e)
    then var s: nat, e: nat :| IsTag(key, s, e); key[s + 1..e]
    else key
  }

  // The slot that a check value stands for.
  function Masked(word: bv16): (slot: nat)
    ensures slot < 16384
  {
    (word & 0x3FFF) as nat
  }

  method GetClusterSlot(key: seq<bv8>) returns (slot: bv16)
    ensures slot == Crc(HashedPart(key)) & 0x3FFF
    ensures slot < 16384
  {
    hide Crc;
    var s := 0;
    while s < |key|
      invariant 0 <= s <= |key| && Absent(OPEN, key, 0, s)
    {
      if key[s] == OPEN { break; }
      s := s + 1;
    }
    if s == |key| {
      var whole := Crc16.Crc16(key);
      return whole & 0x3FFF;
    }
    var e := s + 1;
    while e < |key|
      invariant s + 1 <= e <= |key| && Absent(CLOSE, key, s + 1, e)
    {
      if key[e] == CLOSE { break; }
      e := e + 1;
    }
    if e == |key| || e == s + 1 {
      NoTag(key, s, e);
      var whole := Crc16.Crc16(key);
      return whole & 0x3FFF;
    }
    assert IsTag(key, s, e);
    TagIsHashed(key, s, e);
    var inner := Crc16.Crc16(key[s + 1..e]);
    return inner & 0x3FFF;
  }

  lemma TagIsHashed(key: seq<bv8>, s: nat, e: nat)
    requires IsTag(key, s, e)
    ensures HashedPart(key) == key[s + 1..e]
  {
    forall s': nat, e': nat | IsTag(key, s', e') ensures s' == s && e' == e {
      TagIsUnique(key, s, e, s', e');
    }
  }

  lemma NoTag(key: seq<bv8>, s: nat, e: nat)
    requires s < |key| && key[s] == OPEN && Absent(OPEN, key, 0, s)
    requires s + 1 <= e <= |key| && Absent(CLOSE, key, s + 1, e)
    requires e == |key| || (e == s + 1 && key[e] == CLOSE)
    ensures HashedPart(key) == key
  {
  }

  // Keys with the same tag are hashed alike, whatever surrounds the tag: this is
  // what the tag is for. A tag has no closing brace and is not empty.
  lemma TagDecides(before: seq<bv8>, tag: seq<bv8>, after: seq<bv8>)
    requires OPEN !in before && CLOSE !in tag && tag != []
    ensures HashedPart(before + [OPEN] + tag + [CLOSE] + after) == tag
  {
    var key := before + [OPEN] + tag + [CLOSE] + after;
    var s, e := |before|, |before| + 1 + |tag|;
    assert key[..s] == before && key[s + 1..e] == tag;
    TagIsHashed(key, s, e);
  }

  lemma Braces()
    ensures OPEN as int == '{' as int && CLOSE as int == '}' as int
  {
  }

  // Every key of the form the specification calls tagged arises in that way, and
  // a key that does not is hashed whole.
  lemma TagOrWhole(key: seq<bv8>)
    ensures HashedPart(key) == key ||
      exists before, after ::
        && OPEN !in before && CLOSE !in HashedPart(key) && HashedPart(key) != []
        && key == before + [OPEN] + HashedPart(key) + [CLOSE] + after
  {
    if s: nat, e: nat :| IsTag(key, s, e) {
      TagIsHashed(key, s, e);
      assert key == key[..s] + [OPEN] + key[s + 1..e] + [CLOSE] + key[e + 1..];
    }
  }
}
