/** The connection's bounded flight buffer and the transactional lease by which a
    transport lends its own storage for one flight. */
module FlightBuffer {
  import opened Bytes
  import opened Encoding

  /** The vector behind an `OutboundFlight`. */
  class Lent {
    var bytes: Octets

    constructor (bytes: Octets)
      ensures this.bytes == bytes
    {
      this.bytes := bytes;
    }
  }

  datatype Saved = Saved(base: nat, limit: nat, overflowed: bool, outboundBase: nat)

  lemma KeptLimit(s: Sink, start: nat, width: nat, len: nat)
    requires s.Bounded?
    ensures Patch(s, start, width, len).Bounded? && Patch(s, start, width, len).limit == s.limit
  {
  }

  /** `BoundedBuffer`: bytes below `base` belong to earlier flights and are never touched. */
  class BoundedBuffer {
    var bytes: Octets
    var base: nat
    var limit: nat
    var overflowed: bool

    ghost predicate Valid()
      reads this
    {
      base <= |bytes| && |bytes| - base <= limit
    }

    ghost function View(): Sink
      requires Valid()
      reads this
    {
      Bounded(bytes[base..], limit, overflowed)
    }

    constructor (limit: nat)
      ensures Valid() && View() == Bounded([], limit, false) && base == 0
    {
      bytes, base, this.limit, overflowed := [], 0, limit, false;
    }

    method Clear()
      requires Valid()
      modifies this
      ensures Valid() && base == old(base) && bytes == old(bytes[..base])
      ensures View() == Bounded([], old(limit), false)
    {
      bytes := bytes[..base];
      overflowed := false;
    }

    /** `put_slice`, through `reserve_encoded` */
    method Write(data: Octets)
      requires Valid()
      modifies this
      ensures Valid() && base == old(base) && bytes[..base] == old(bytes[..base])
      ensures View() == PutTo(old(View()), data)
    {
      if overflowed || |data| > limit - (|bytes| - base) {
        overflowed := true;
        return;
      }
      ghost var before := bytes;
      bytes := bytes + data;
      assert bytes[base..] == before[base..] + data;
    }

    method RollbackTo(len: nat)
      requires Valid() && len <= |bytes| - base
      modifies this
      ensures Valid() && base == old(base) && bytes[..base] == old(bytes[..base])
      ensures View() == Rollback(old(View()), len)
    {
      ghost var before := bytes;
      bytes := bytes[..base + len];
      assert bytes[base..] == before[base..][..len];
      assert bytes[..base] == before[..base];
    }

    method PatchLengthPrefix(start: nat, width: nat, len: nat)
      requires Valid() && start + width <= |bytes| - base
      modifies this
      ensures Valid() && base == old(base) && bytes[..base] == old(bytes[..base])
      ensures View() == Patch(old(View()), start, width, len)
    {
      ghost var before := bytes;
      var at := base + start;
      bytes := bytes[..at] + Be(len, width) + bytes[at + width..];
      assert bytes[base..] == before[base..][..start] + Be(len, width) + before[base..][start + width..];
      assert bytes[..base] == before[..base];
    }

    /** Leaving the frame that began at `start`: `finish`, or the drop that rolls back. */
    method Shut(start: nat, width: nat, abandon: bool, inner: Option<EncodeError>,
                ghost began: Sink) returns (error: Option<EncodeError>)
      requires Valid() && start + width <= |bytes| - base && began.Bounded? && |began.bytes| == start
      modifies this
      ensures Valid() && base == old(base) && limit == old(limit) && bytes[..base] == old(bytes[..base])
      ensures Outcome(View(), error) == Close(began, width, abandon, Outcome(old(View()), inner))
    {
      hide Span, Patch;
      if inner.Some? || abandon {
        RollbackTo(start);
        return inner;
      }
      if overflowed {
        RollbackTo(start);
        return Some(Capacity);
      }
      var len := |bytes| - base - (start + width);
      if len >= Span(width) {
        RollbackTo(start);
        return Some(Overflow);
      }
      PatchLengthPrefix(start, width, len);
      KeptLimit(old(View()), start, width, len);
      return None;
    }

    /** Runs one encoding operation: a put, or a frame with its nested program. */
    method Encode(op: Op) returns (error: Option<EncodeError>)
      requires Valid()
      modifies this
      ensures Valid() && base == old(base) && limit == old(limit) && bytes[..base] == old(bytes[..base])
      ensures Outcome(View(), error) == Exec(old(View()), op)
      decreases op, 1
    {
      hide Close;
      match op {
        case Put(data) =>
          Write(data);
          return None;
        case Framed(width, body, abandon) =>
          if overflowed || width > limit - (|bytes| - base) {
            overflowed := true;
            return Some(Capacity);
          }
          var start := |bytes| - base;
          Write(Zeros(width));
          ghost var begun := View();
          error := EncodeAll(body);
          ExecAllKeeps(begun, body);
          error := Shut(start, width, abandon, error, old(View()));
      }
    }

    method EncodeAll(ops: seq<Op>) returns (error: Option<EncodeError>)
      requires Valid()
      modifies this
      ensures Valid() && base == old(base) && limit == old(limit) && bytes[..base] == old(bytes[..base])
      ensures Outcome(View(), error) == ExecAll(old(View()), ops)
      decreases ops, 0
    {
      if ops == [] {
        return None;
      }
      error := Encode(ops[0]);
      if error.None? {
        error := EncodeAll(ops[1..]);
      }
    }

    /** `flight`: swaps the lent vector in and works above its present length. */
    method Lend(outbound: Lent, maximum: nat) returns (saved: Saved)
      requires Valid()
      modifies this, outbound
      ensures Valid() && View() == Bounded([], maximum, false)
      ensures bytes == old(outbound.bytes) && base == |bytes| && outbound.bytes == old(bytes)
      ensures saved == Saved(old(base), old(limit), old(overflowed), |old(outbound.bytes)|)
    {
      saved := Saved(base, limit, overflowed, |outbound.bytes|);
      bytes, outbound.bytes := outbound.bytes, bytes;
      base, limit, overflowed := |bytes|, maximum, false;
    }

    /** `Drop for Flight`: truncates unless committed, then swaps everything back. */
    method Return(outbound: Lent, saved: Saved, committed: bool)
      requires saved.outboundBase <= |bytes|
      modifies this, outbound
      ensures bytes == old(outbound.bytes)
      ensures base == saved.base && limit == saved.limit && overflowed == saved.overflowed
      ensures outbound.bytes == if committed then old(bytes) else old(bytes)[..saved.outboundBase]
    {
      if !committed {
        bytes := bytes[..saved.outboundBase];
      }
      bytes, outbound.bytes := outbound.bytes, bytes;
      base, limit, overflowed := saved.base, saved.limit, saved.overflowed;
    }

    /** A flight into lent storage: the lender ends with its old bytes, followed by the
        encoding if and only if encoding succeeded; the connection's own buffer is as it
        was, whatever happened. */
    method LentFlight(outbound: Lent, maximum: nat, ops: seq<Op>) returns (error: Option<EncodeError>)
      requires Valid()
      modifies this, outbound
      ensures Valid() && View() == old(View()) && bytes == old(bytes) && base == old(base)
      ensures error == ExecAll(Bounded([], maximum, false), ops).error
      ensures outbound.bytes == old(outbound.bytes) +
                if error.None? then Contents(ExecAll(Bounded([], maximum, false), ops).state) else []
      ensures error.None? && !Spoiled(ExecAll(Bounded([], maximum, false), ops).state) ==>
                MeaningAll(ops).Some? && outbound.bytes == old(outbound.bytes) + MeaningAll(ops).value
    {
      hide Exec, Meaning, Peak;
      ghost var lent := outbound.bytes;
      var saved := Lend(outbound, maximum);
      Clear();
      error := EncodeAll(ops);
      assert bytes == bytes[..base] + bytes[base..];
      ExecAllMeans(Bounded([], maximum, false), ops);
      Return(outbound, saved, error.None?);
    }
  }
}
