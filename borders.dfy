/** The borders section: one length-prefixed record per area feature, the length written as a
    variable-length unsigned integer. */
module Borders {
  import opened Wrappers
  import opened Features

  /** WriteVarUint's encoding: seven bits per byte, least significant group first, the high bit set on
      every byte but the last. */
  function VarUint(n: nat): (bytes: seq<byte>)
    ensures bytes != [] && bytes[|bytes| - 1] < 128
    ensures forall i :: 0 <= i < |bytes| - 1 ==> bytes[i] >= 128
  {
    if n <= 127 then [n] else [n % 128 + 128] + VarUint(n / 128)
  }

  /** The matching reader: the value and the number of bytes it occupies. */
  function ReadVarUint(s: seq<byte>): (r: Option<(nat, nat)>)
    ensures r.Some? ==> 1 <= r.value.1 <= |s|
  {
    if s == [] then None
    else if s[0] < 128 then Some((s[0], 1))
    else match ReadVarUint(s[1..])
      case None => None
      case Some((v, k)) => Some((s[0] - 128 + 128 * v, k + 1))
  }

  /** Reading back what WriteVarUint wrote yields the value and stops right after it. */
  lemma {:induction false} ReadVarUintRoundTrip(n: nat, rest: seq<byte>)
    ensures ReadVarUint(VarUint(n) + rest) == Some((n, |VarUint(n)|))
  {
    if n > 127 {
      ReadVarUintRoundTrip(n / 128, rest);
      assert (VarUint(n) + rest)[1..] == VarUint(n / 128) + rest;
    }
  }

  /** One border record: the length of the bytes, then the bytes. */
  function Record(bytes: seq<byte>): seq<byte>
  {
    VarUint(|bytes|) + bytes
  }

  /** The records of the given buffers, one after another. */
  function Records(buffers: seq<seq<byte>>): seq<byte>
  {
    if buffers == [] then [] else Record(buffers[0]) + Records(buffers[1..])
  }

  lemma {:induction false} RecordsAppend(buffers: seq<seq<byte>>, b: seq<byte>)
    ensures Records(buffers + [b]) == Records(buffers) + Record(b)
  {
    if buffers == [] {
      assert buffers + [b] == [b];
      assert Records([b][1..]) == [];
    } else {
      assert (buffers + [b])[1..] == buffers[1..] + [b];
      RecordsAppend(buffers[1..], b);
    }
  }

  /** Splits a section into the buffers of its records; None when it is not a sequence of well-formed,
      non-empty records. */
  function SplitRecords(s: seq<byte>): Option<seq<seq<byte>>>
    decreases |s|
  {
    if s == [] then Some([])
    else match ReadVarUint(s)
      case None => None
      case Some((n, k)) =>
        if n == 0 || |s| - k < n then None
        else match SplitRecords(s[k + n..])
          case None => None
          case Some(rest) => Some([s[k..k + n]] + rest)
  }

  predicate NoEmptyBuffer(buffers: seq<seq<byte>>)
  {
    forall i :: 0 <= i < |buffers| ==> buffers[i] != []
  }

  /** A section made of non-empty records splits back into exactly its buffers. */
  lemma {:induction false} SplitRecordsRoundTrip(buffers: seq<seq<byte>>)
    requires NoEmptyBuffer(buffers)
    ensures SplitRecords(Records(buffers)) == Some(buffers)
  {
    if buffers != [] {
      var b, tail := buffers[0], buffers[1..];
      var s := Records(buffers);
      var k := |VarUint(|b|)|;
      assert s == VarUint(|b|) + (b + Records(tail));
      ReadVarUintRoundTrip(|b|, b + Records(tail));
      assert s[k..k + |b|] == b;
      assert s[k + |b|..] == Records(tail);
      SplitRecordsRoundTrip(tail);
      assert buffers == [b] + tail;
    }
  }

  /** The serialised borders of the area features, in stream order. */
  function AreaBorders(features: seq<Feature>): seq<seq<byte>>
  {
    if features == [] then []
    else
      var last := features[|features| - 1];
      AreaBorders(features[..|features| - 1]) + (if IsArea(last) then [last.border] else [])
  }

  /** Some area feature serialises to no bytes at all. */
  predicate HasEmptyAreaBorder(features: seq<Feature>)
  {
    exists i :: 0 <= i < |features| && IsArea(features[i]) && features[i].border == []
  }

  lemma {:induction false} AreaBordersNonEmpty(features: seq<Feature>)
    requires !HasEmptyAreaBorder(features)
    ensures NoEmptyBuffer(AreaBorders(features))
  {
    if features != [] {
      var init := features[..|features| - 1];
      assert !HasEmptyAreaBorder(init) by {
        forall i | 0 <= i < |init| ensures !(IsArea(init[i]) && init[i].border == []) {
          assert init[i] == features[i];
        }
      }
      AreaBordersNonEmpty(init);
    }
  }

  /** BordersCollector: writes the records into the borders section of an existing container. */
  class BordersCollector {
    var section: seq<byte>  // what has been written to the borders section
    var buffer: seq<byte>   // m_buffer, reused for every feature

    constructor ()
      ensures section == [] && buffer == []
    {
      section := [];
      buffer := [];
    }

    /** Collect: serialise an area feature's border into the buffer and write it as one record. `ok` is
        false when the CHECK on the record's size aborts the process; nothing is written then. */
    method Collect(fb: Feature) returns (ok: bool)
      modifies this
      ensures ok <==> !(IsArea(fb) && fb.border == [])
      ensures section == if IsArea(fb) && ok then old(section) + Record(fb.border) else old(section)
      ensures buffer == if IsArea(fb) then fb.border else old(buffer)
    {
      if IsArea(fb) {
        buffer := [];
        buffer := buffer + fb.border;
        ok := WriteFeatureData(buffer);
      } else {
        ok := true;
      }
    }

    /** WriteFeatureData: the size (which must not be zero), then the bytes. */
    method WriteFeatureData(bytes: seq<byte>) returns (ok: bool)
      modifies this`section
      ensures ok <==> bytes != []
      ensures section == if ok then old(section) + Record(bytes) else old(section)
    {
      if |bytes| == 0 {
        return false;
      }
      WriteVarUint(|bytes|);
      section := section + bytes;
      return true;
    }

    /** WriteVarUint: emit the low seven bits with the continuation bit while more than seven bits
        remain, then the last group. */
    method WriteVarUint(n: nat)
      modifies this`section
      ensures section == old(section) + VarUint(n)
    {
      var value := n;
      while value > 127
        invariant old(section) + VarUint(n) == section + VarUint(value)
      {
        section := section + [value % 128 + 128];
        value := value / 128;
      }
      section := section + [value];
    }
  }

  /** GenerateBorders: one pass of the collector over the feature stream. Some(section) when every area
      record is written; None when the empty-record CHECK aborts the process. */
  method GenerateBorders(features: seq<Feature>) returns (r: Option<seq<byte>>)
    ensures r.None? <==> HasEmptyAreaBorder(features)
    ensures r.Some? ==> r.value == Records(AreaBorders(features))
    ensures r.Some? ==> SplitRecords(r.value) == Some(AreaBorders(features))
  {
    var collector := new BordersCollector();
    var i := 0;
    while i < |features|
      invariant 0 <= i <= |features|
      invariant collector.section == Records(AreaBorders(features[..i]))
      invariant !HasEmptyAreaBorder(features[..i])
    {
      var fb := features[i];
      var done := features[..i + 1];
      assert done[..i] == features[..i] && done[i] == fb;
      var ok := collector.Collect(fb);
      if !ok {
        assert IsArea(features[i]) && features[i].border == [];
        return None;
      }
      if IsArea(fb) {
        assert AreaBorders(done) == AreaBorders(features[..i]) + [fb.border];
        RecordsAppend(AreaBorders(features[..i]), fb.border);
      } else {
        assert AreaBorders(done) == AreaBorders(features[..i]) + [] == AreaBorders(features[..i]);
      }
      assert !HasEmptyAreaBorder(done) by {
        forall j | 0 <= j < i + 1 ensures !(IsArea(done[j]) && done[j].border == []) {
          if j < i {
            assert done[j] == features[..i][j];
          }
        }
      }
      i := i + 1;
    }
    assert features[..i] == features;
    AreaBordersNonEmpty(features);
    SplitRecordsRoundTrip(AreaBorders(features));
    return Some(collector.section);
  }
}
