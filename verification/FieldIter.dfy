/** `pb_common.c`: the circular walk over a message descriptor and the lookup of a field by tag. */
module FieldIter {
  import opened Types

  const LTYPE_EXTENSION := 0x0A

  /** A generated descriptor: packed field words, the number of fields and the largest tag. */
  datatype Descriptor = Descriptor(info: seq<U32>, count: nat, largest: nat)

  /** The lowest two bits of a field's first word give its length, 2^n words. */
  function Words(word0: U32): nat {
    if word0 % 4 == 0 then 1 else if word0 % 4 == 1 then 2 else if word0 % 4 == 2 then 4 else 8
  }

  /** Word offset of field `i`. */
  function Offset(info: seq<U32>, i: nat): nat {
    if i == 0 then 0
    else
      var before := Offset(info, i - 1);
      if before < |info| then before + Words(info[before]) else before
  }

  /** The tag in the field's words; `pb_size_t` keeps sixteen bits. */
  function TagAt(info: seq<U32>, at: nat): nat
    requires at < |info| && at + Words(info[at]) <= |info|
  {
    var word0: int := info[at];
    if word0 % 4 == 0 then word0 / 4 % 0x40
    else
      var word1: int := info[at + 1];
      if word0 % 4 == 1 then word0 / 4 % 0x40 + word1 / 0x1000_0000 * 0x40
      else (word0 / 4 % 0x40 + word1 / 0x100 * 0x40) % 0x1_0000
  }

  function TypeAt(info: seq<U32>, at: nat): nat
    requires at < |info|
  {
    info[at] / 0x100 % 0x100
  }

  /** The words of field `i` lie inside the table. */
  predicate InTable(d: Descriptor, i: nat) {
    Offset(d.info, i) < |d.info| && Offset(d.info, i) + Words(d.info[Offset(d.info, i)]) <= |d.info|
  }

  predicate Sized(d: Descriptor) {
    d.count > 0 && forall i :: 0 <= i < d.count ==> InTable(d, i)
  }

  function TagOf(d: Descriptor, i: nat): nat
    requires Sized(d) && i < d.count
  {
    assert InTable(d, i);
    TagAt(d.info, Offset(d.info, i))
  }

  function TypeOf(d: Descriptor, i: nat): nat
    requires Sized(d) && i < d.count
  {
    assert InTable(d, i);
    TypeAt(d.info, Offset(d.info, i))
  }

  /** What the generator guarantees: whole fields in strictly increasing tag order. */
  predicate WellFormed(d: Descriptor) {
    && Sized(d)
    && (forall i, j :: 0 <= i < j < d.count ==> TagOf(d, i) < TagOf(d, j))
    && d.largest == TagOf(d, d.count - 1)
  }

  /** Field `i` is the one looked for. */
  predicate Matches(d: Descriptor, i: nat, tag: nat)
    requires Sized(d) && i < d.count
  {
    TagOf(d, i) == tag && TypeOf(d, i) % 0x10 != LTYPE_EXTENSION
  }

  /** The six tag bits of the first word are the low bits of the tag in every format. */
  lemma FastCheckSound(d: Descriptor, i: nat)
    requires Sized(d) && i < d.count
    ensures InTable(d, i) && d.info[Offset(d.info, i)] / 4 % 0x40 == TagOf(d, i) % 0x40
  {
    assert InTable(d, i);
    var at := Offset(d.info, i);
    var word0: int := d.info[at];
    if word0 % 4 >= 2 {
      var word1: int := d.info[at + 1];
      var wide := word0 / 4 % 0x40 + word1 / 0x100 * 0x40;
      assert wide % 0x1_0000 % 0x40 == wide % 0x40;
    }
  }

  /** A field before the current one cannot carry a larger tag, nor one after it a smaller. */
  lemma TagsOrdered(d: Descriptor, start: nat, tag: nat)
    requires WellFormed(d) && start < d.count
    ensures tag < TagOf(d, start) ==> forall j :: start <= j < d.count ==> !Matches(d, j, tag)
    ensures tag > d.largest ==> forall j :: 0 <= j < d.count ==> !Matches(d, j, tag)
  {
    assert forall j :: start < j < d.count ==> TagOf(d, start) < TagOf(d, j);
    assert forall j :: 0 <= j < d.count - 1 ==> TagOf(d, j) < TagOf(d, d.count - 1);
  }

  /** Which fields are not the one looked for. */
  ghost function Misses(d: Descriptor, wanted: nat): (r: seq<bool>)
    requires Sized(d)
    ensures |r| == d.count && forall j :: 0 <= j < |r| ==> r[j] == !Matches(d, j, wanted)
  {
    seq(d.count, j requires 0 <= j < d.count => !Matches(d, j, wanted))
  }

  predicate Seen(miss: seq<bool>, from: nat, to: nat) {
    forall j :: from <= j < to && j < |miss| ==> miss[j]
  }

  /** Where a sweep that has `left` fields to go stands: about to restart from the front, past
      its start, or back in front of it. `back`: no field from the start on can match. */
  ghost predicate Sweeping(miss: seq<bool>, start: nat, index: nat, left: nat, back: bool) {
    && 0 < left && start < |miss| && (back ==> Seen(miss, start, |miss|))
    && (|| (index == |miss| && left == start + 1 && back)
        || (start <= index < |miss| && index + left == start + |miss| && !back && Seen(miss, start + 1, index + 1))
        || (index < |miss| && index + left == start && Seen(miss, 0, index + 1)
            && (back || Seen(miss, start + 1, |miss|))))
  }

  function NextIndex(count: nat, index: nat): nat {
    if index + 1 >= count then 0 else index + 1
  }

  /** A step that finds nothing continues the sweep, or ends it with nothing to find anywhere. */
  lemma SweepStep(miss: seq<bool>, start: nat, index: nat, left: nat, back: bool)
    requires Sweeping(miss, start, index, left, back) && miss[NextIndex(|miss|, index)]
    ensures NextIndex(|miss|, index) != start ==> Sweeping(miss, start, NextIndex(|miss|, index), left - 1, back)
    ensures NextIndex(|miss|, index) == start ==> Seen(miss, 0, |miss|)
  {
  }

  class FieldIterator {
    const desc: Descriptor
    var index: nat
    var infoIndex: nat
    var tag: nat
    var kind: nat

    /** Index and word offset are those of the field whose values are loaded. */
    ghost predicate Consistent()
      reads this
    {
      && WellFormed(desc) && index < desc.count && infoIndex == Offset(desc.info, index)
      && tag == TagOf(desc, index) && kind == TypeOf(desc, index)
    }

    /** `pb_field_iter_begin`. */
    constructor (d: Descriptor)
      requires WellFormed(d)
      ensures desc == d && Consistent() && index == 0
    {
      desc := d;
      index := 0;
      infoIndex := 0;
      assert InTable(d, 0);
      tag := TagAt(d.info, 0);
      kind := TypeAt(d.info, 0);
    }

    /** `load_descriptor_values`, as far as tag and type go. */
    method LoadValues()
      requires WellFormed(desc) && index < desc.count && infoIndex == Offset(desc.info, index)
      modifies `tag, `kind
      ensures Consistent()
    {
      assert InTable(desc, index);
      tag := TagAt(desc.info, infoIndex);
      kind := TypeAt(desc.info, infoIndex);
    }

    /** `advance_iterator`: the next field, or the first one past the end. */
    method Advance()
      requires WellFormed(desc) && (index < desc.count ==> infoIndex == Offset(desc.info, index))
      modifies `index, `infoIndex
      ensures index == if old(index) + 1 >= desc.count then 0 else old(index) + 1
      ensures infoIndex == Offset(desc.info, index)
    {
      index := index + 1;
      if index >= desc.count {
        index := 0;
        infoIndex := 0;
      } else {
        assert InTable(desc, index - 1);
        infoIndex := infoIndex + Words(desc.info[infoIndex]);
      }
    }

    /** `pb_field_iter_next`: false when the walk starts over. */
    method Next() returns (more: bool)
      requires Consistent()
      modifies `index, `infoIndex, `tag, `kind
      ensures Consistent() && more == (old(index) + 1 < desc.count)
      ensures index == if more then old(index) + 1 else 0
    {
      Advance();
      LoadValues();
      more := index != 0;
    }

    /** One step of the search: advance, compare the low tag bits, load and compare in full. */
    method Probe(wanted: nat) returns (hit: bool)
      requires WellFormed(desc) && (index < desc.count ==> infoIndex == Offset(desc.info, index))
      modifies `index, `infoIndex, `tag, `kind
      ensures index == NextIndex(desc.count, old(index)) && infoIndex == Offset(desc.info, index)
      ensures hit == Matches(desc, index, wanted)
      ensures hit ==> Consistent() && tag == wanted
    {
      Advance();
      FastCheckSound(desc, index);
      if desc.info[infoIndex] / 4 % 0x40 == wanted % 0x40 {
        LoadValues();
        if tag == wanted && kind % 0x10 != LTYPE_EXTENSION {
          return true;
        }
      }
      return false;
    }

    /** `pb_field_iter_find`: from any position, finds the field exactly when it exists. */
    method Find(wanted: nat) returns (found: bool)
      requires Consistent()
      modifies `index, `infoIndex, `tag, `kind
      ensures Consistent()
      ensures found <==> old(tag) == wanted || exists j :: 0 <= j < desc.count && Matches(desc, j, wanted)
      ensures found ==> tag == wanted
      ensures !found ==> index == old(index)
    {
      TagsOrdered(desc, index, wanted);
      if tag == wanted {
        return true;
      }
      if wanted > desc.largest {
        return false;
      }
      var start := index;
      ghost var left: nat := desc.count;
      ghost var miss, back := Misses(desc, wanted), wanted < tag;
      if wanted < tag {
        index := desc.count;
        left := start + 1;
      }
      while true
        invariant Sweeping(miss, start, index, left, back)
        invariant index < desc.count ==> infoIndex == Offset(desc.info, index)
        decreases left
      {
        ghost var before := index;
        var hit := Probe(wanted);
        if hit {
          return true;
        }
        SweepStep(miss, start, before, left, back);
        left := left - 1;
        if index == start {
          break;
        }
      }
      LoadValues();
      return false;
    }
  }

  // ---- The mesh message ----

  /** The tags of `mesh_MeshMessage`, in descriptor order. */
  const MESH_TAGS: seq<nat> := [1, 2, 3, 4, 5, 6, 7, 8, 9, 10, 11, 12, 13, 14, 17]

  predicate IsMeshDescriptor(d: Descriptor) {
    && WellFormed(d) && d.count == |MESH_TAGS|
    && forall i :: 0 <= i < |MESH_TAGS| ==> TagOf(d, i) == MESH_TAGS[i] && TypeOf(d, i) % 0x10 != LTYPE_EXTENSION
  }

  /** For the mesh message a lookup succeeds exactly on its fifteen tags. */
  lemma MeshTagKnown(d: Descriptor, tag: nat)
    requires IsMeshDescriptor(d)
    ensures (exists j :: 0 <= j < d.count && Matches(d, j, tag)) <==> 1 <= tag <= 14 || tag == 17
  {
    if 1 <= tag <= 14 {
      assert TagOf(d, tag - 1) == MESH_TAGS[tag - 1];
      assert Matches(d, tag - 1, tag);
    } else if tag == 17 {
      assert TagOf(d, 14) == MESH_TAGS[14];
      assert Matches(d, 14, tag);
    }
  }
}
