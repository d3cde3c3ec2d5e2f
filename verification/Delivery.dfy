/** Encoder and reassembler together: whatever was written as handshake messages arrives
    as those messages, however the records cut their bytes. */
module Delivery {
  import opened Bytes
  import opened Reassembler
  import Wire = Frames
  import WireLayout

  /** Each frame was encoded to the bytes beside it, of a size the reassembler takes. */
  ghost predicate Written(frames: seq<Wire.Frame>, raws: seq<Octets>)
  {
    |frames| == |raws| &&
    forall i :: 0 <= i < |raws| ==> Wire.Encode(frames[i]) == Some(raws[i]) && |raws[i]| <= 262144
  }

  /** The length an encoded message announces is its own. */
  lemma EncodedIsExact(f: Wire.Frame, raw: Octets)
    requires Wire.Encode(f) == Some(raw) && |raw| <= 262144
    ensures Exact(raw) && (raw[0] == 24 <==> f.KeyUpdate?)
  {
    hide WireLayout.BodyBytes, WireLayout.Sized, Wire.Encode;
    WireLayout.EncodeLayout(f);
    var n := |WireLayout.BodyBytes(f)|;
    SizedBody(f);
    WireLayout.BigEndian(n);
    Wire.Widths();
    ValueBe(n, 3);
    AnnouncedLength(raw);
    assert raw[1..4] == WireLayout.U24(n);
  }

  lemma SizedBody(f: Wire.Frame)
    ensures WireLayout.Sized(f) ==> |WireLayout.BodyBytes(f)| < 0x100_0000
  {
  }

  lemma WrittenIsExact(frames: seq<Wire.Frame>, raws: seq<Octets>)
    requires Written(frames, raws)
    ensures forall i :: 0 <= i < |raws| ==> Exact(raws[i])
  {
    hide Wire.Encode;
    forall i | 0 <= i < |raws| ensures Exact(raws[i]) {
      EncodedIsExact(frames[i], raws[i]);
    }
  }

  /** Framing a concatenation of whole messages gives them back. */
  lemma {:induction false} FramesOfMany(raws: seq<Octets>)
    requires forall i :: 0 <= i < |raws| ==> Exact(raws[i])
    ensures Frames(Flatten(raws)) == Framing(raws, [])
  {
    hide Exact;
    if raws != [] {
      FramesOfMany(raws[1..]);
      FramesOfExact(raws[0], Flatten(raws[1..]));
      assert raws == [raws[0]] + raws[1..];
    }
  }

  /** Where some of the messages were delivered, the rest of the bytes start with the next one. */
  lemma NextMessage(raws: seq<Octets>, k: nat, tail: Octets, more: Octets)
    requires forall i :: 0 <= i < |raws| ==> Exact(raws[i])
    requires k <= |raws| && Flatten(raws[..k]) + tail + more == Flatten(raws)
    ensures k == |raws| ==> tail == []
    ensures k < |raws| ==> tail + more == raws[k] + Flatten(raws[k + 1..])
  {
    hide Exact, Flatten;
    FlattenAppend(raws[..k], raws[k..]);
    assert raws == raws[..k] + raws[k..];
    SplitEqual(Flatten(raws[..k]), tail + more, Flatten(raws[..k]), Flatten(raws[k..]));
    if k == |raws| {
      assert raws[k..] == [];
      FlattenNone();
    } else {
      assert raws[k..] == [raws[k]] + raws[k + 1..];
      FlattenCons(raws[k], raws[k + 1..]);
    }
  }

  lemma FlattenNone()
    ensures Flatten([]) == []
  {
  }

  /** So none of the reasons to refuse bytes applies, if the storage holds the longest message. */
  lemma NothingRefused(raws: seq<Octets>, k: nat, tail: Octets, more: Octets, limit: nat, error: Error)
    requires forall i :: 0 <= i < |raws| ==> Exact(raws[i]) && |raws[i]| <= limit
    requires k <= |raws| && Flatten(raws[..k]) + tail + more == Flatten(raws)
    ensures !Refusal(error, tail, limit)
  {
    hide Flatten;
    NextMessage(raws, k, tail, more);
    if k < |raws| && |tail| >= HEADER_LEN {
      var all := raws[k] + Flatten(raws[k + 1..]);
      assert all[..4] == tail[..4] == raws[k][..4];
      assert tail[1] == raws[k][1] && tail[2] == raws[k][2] && tail[3] == raws[k][3];
    }
  }

  lemma {:induction false} KeyUpdatesAppend(a: seq<Octets>, b: seq<Octets>)
    ensures KeyUpdates(a + b) == KeyUpdates(a) + KeyUpdates(b)
    decreases |b|
  {
    if b == [] {
      assert a + b == a;
    } else {
      var init := b[..|b| - 1];
      KeyUpdatesAppend(a, init);
      assert (a + b)[..|a + b| - 1] == a + init;
    }
  }

  lemma {:induction false} FramesAfter(ms: seq<Octets>, tail: Octets)
    requires forall i :: 0 <= i < |ms| ==> Exact(ms[i])
    ensures Frames(Flatten(ms) + tail).messages == ms + Frames(tail).messages
  {
    hide Exact, Frames;
    if ms == [] {
      assert Flatten(ms) + tail == tail;
      assert ms + Frames(tail).messages == Frames(tail).messages;
    } else {
      FramesAfter(ms[1..], tail);
      assert Flatten(ms) + tail == ms[0] + (Flatten(ms[1..]) + tail);
      FramesOfExact(ms[0], Flatten(ms[1..]) + tail);
      assert ms + Frames(tail).messages == [ms[0]] + (ms[1..] + Frames(tail).messages);
    }
  }

  /** A ninth KeyUpdate was met in the record that completes the message it is. */
  lemma NinthUpdate(records: seq<Record>, i: nat, delivered: seq<Octets>, tail: Octets)
    requires i < |records| && Carried(records[..i + 1]) == Flatten(delivered) + tail
    requires forall k :: 0 <= k < |delivered| ==> Exact(delivered[k])
    requires |Frames(Carried(records[..i])).messages| <= |delivered|
    requires KeyUpdates(delivered[|Frames(Carried(records[..i])).messages|..]) >= 8 && Whole(tail) && tail[0] == 24
    ensures KeyUpdates(Completed([], records, i)) > 8
  {
    hide Exact, Flatten, Carried, Frames, KeyUpdates, Whole;
    var before := Frames(Carried(records[..i])).messages;
    var after := Frames(Carried(records[..i + 1])).messages;
    assert [] + Carried(records[..i]) == Carried(records[..i]);
    assert [] + Carried(records[..i + 1]) == Carried(records[..i + 1]);
    CarriedSnoc(records, i);
    FramesResume(Carried(records[..i]), records[i].payload);
    assert before <= after;
    FramesAfter(delivered, tail);
    var n := FramesStep(tail);
    var (later, rest) := (delivered[|before|..], Frames(tail[n..]).messages);
    assert after == delivered + ([tail[..n]] + rest);
    assert after[|before|..] == later + ([tail[..n]] + rest);
    OneMore(later, tail[..n], rest);
  }

  lemma OneMore(some: seq<Octets>, m: Octets, more: seq<Octets>)
    requires KeyUpdates(some) >= 8 && m != [] && m[0] == 24
    ensures KeyUpdates(some + ([m] + more)) > 8
  {
    hide KeyUpdates;
    KeyUpdatesAppend(some, [m] + more);
    KeyUpdatesAppend([m], more);
    OneUpdate(m);
  }

  lemma OneUpdate(m: Octets)
    requires m != [] && m[0] == 24
    ensures KeyUpdates([m]) == 1
  {
    assert [m][..0] == [];
  }

  /** Reading any cut of the encoded messages never stops for another reason than a record
      that completes a ninth KeyUpdate. */
  lemma OnlyUpdatesStop(frames: seq<Wire.Frame>, raws: seq<Octets>, records: seq<Record>, epoch: Epoch, limit: nat,
                        error: Error, delivered: seq<Octets>, process: seq<Octets> -> bool, i: nat, tail: Octets)
    requires Written(frames, raws) && Carried(records) == Flatten(raws)
    requires forall k :: 0 <= k < |raws| ==> |raws[k]| <= limit
    requires forall k :: 0 <= k < |records| ==> records[k].epoch == epoch
    requires forall ms :: process(ms)
    requires delivered <= raws && Stopped(error, [], None, records, delivered, limit, process, i, tail)
    ensures error == UnexpectedMessage && |delivered| < |raws| && KeyUpdates(Completed([], records, i)) > 8
  {
    hide Flatten, Carried, Frames, Exact, Whole, Refusal, Completed, KeyUpdates;
    WrittenIsExact(frames, raws);
    CarriedRest(records, i + 1);
    assert [] + Carried(records[..i + 1]) == Carried(records[..i + 1]);
    assert [] + Carried(records[..i]) == Carried(records[..i]);
    var k := |delivered|;
    assert delivered == raws[..k];
    NothingRefused(raws, k, tail, Carried(records[i + 1..]), limit, error);
    NextMessage(raws, k, tail, Carried(records[i + 1..]));
    if error == HandshakeSpansEpoch {
      assert i == 0 && records[..0] == [];
      NothingCarried();
    } else {
      NinthUpdate(records, i, delivered, tail);
      NotWhole();
    }
  }

  lemma NothingCarried()
    ensures Carried([]) == [] && Frames([]).rest == []
  {
  }

  lemma NotWhole()
    ensures !Whole([])
  {
  }

  /** A fresh reassembler with room for the longest message, given any cut of the encoded
      messages into records of one epoch, delivers exactly those messages and keeps nothing,
      unless some record completes more than eight KeyUpdates. */
  method DeliverAll(records: seq<Record>, epoch: Epoch, limit: nat, ghost frames: seq<Wire.Frame>,
                    ghost raws: seq<Octets>)
    returns (o: Outcome, delivered: seq<Octets>, left: Octets)
    requires Written(frames, raws) && Carried(records) == Flatten(raws)
    requires forall k :: 0 <= k < |raws| ==> |raws[k]| <= limit
    requires forall k :: 0 <= k < |records| ==> records[k].epoch == epoch
    ensures o.Ok? <==> forall i :: 0 <= i < |records| ==> KeyUpdates(Completed([], records, i)) <= 8
    ensures o.Ok? ==> delivered == raws && left == []
    ensures o.Err? ==> o.error == UnexpectedMessage && delivered < raws
  {
    hide Written, Flatten, Carried, Frames, Completed, KeyUpdates, Stopped, HsReassembler.Valid;
    var r := new HsReassembler(limit);
    var process := (ms: seq<Octets>) => true;
    assert [] + Carried(records) == Carried(records);
    WrittenIsExact(frames, raws);
    FramesOfMany(raws);
    o, delivered := ReadAll(r, records, process);
    left := r.buf;
    if o.Err? {
      ghost var i, tail :| Stopped(o.error, [], None, records, delivered, limit, process, i, tail);
      OnlyUpdatesStop(frames, raws, records, epoch, limit, o.error, delivered, process, i, tail);
      InRange(o.error, records, delivered, limit, process, i, tail);
    }
  }

  lemma InRange(error: Error, records: seq<Record>, delivered: seq<Octets>, limit: nat,
                process: seq<Octets> -> bool, i: nat, tail: Octets)
    requires Stopped(error, [], None, records, delivered, limit, process, i, tail)
    ensures i < |records|
  {
  }
}
