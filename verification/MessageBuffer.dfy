/** The growable byte buffer each endpoint reserves once and reuses for every header and payload. */
module MessageBuffers {
  import opened Types

  /** A vector: `store.Length` is its capacity and `store[..len]` its contents. */
  class MessageBuffer {
    var store: array<byte>
    var len: nat

    ghost predicate Valid()
      reads this
    {
      len <= store.Length
    }

    /** The reservation every endpoint relies on: whatever it accepts fits without allocating. */
    ghost predicate Reserved(limit: nat)
      reads this
    {
      Valid() && limit <= store.Length && DEFAULT_MAX_BUFFER_SIZE <= store.Length
    }

    ghost function Contents(): seq<byte>
      requires Valid()
      reads this, store
    {
      store[..len]
    }

    constructor WithCapacity(capacity: nat)
      ensures Valid() && fresh(store) && store.Length == capacity && Contents() == []
    {
      store := new byte[capacity](_ => 0);
      len := 0;
    }

    method Clear()
      requires Valid()
      modifies this`len
      ensures Valid() && Contents() == []
    {
      len := 0;
    }

    /** Truncates, or fills up with zeros. The storage is replaced only when `n` exceeds the capacity. */
    method Resize(n: nat)
      requires Valid()
      modifies this, store
      ensures Valid() && len == n
      ensures n <= old(store.Length) ==> store == old(store)
      ensures n > old(store.Length) ==> fresh(store)
      ensures n <= old(len) ==> Contents() == old(Contents())[..n]
      ensures n > old(len) ==> Contents() == old(Contents()) + seq(n - old(len), _ => 0)
    {
      if n > store.Length {
        ghost var was := store[..len];
        var bigger := new byte[n](_ => 0);
        forall i | 0 <= i < len { bigger[i] := store[i]; }
        assert bigger[..] == was + seq(n - len, _ => 0);
        store := bigger;
        assert store[..n] == bigger[..];
      } else if n > len {
        ghost var was := store[..len];
        forall i | len <= i < n { store[i] := 0; }
        assert store[..n] == was + seq(n - len, _ => 0);
      }
      len := n;
    }

    /** Appends; within the capacity nothing is allocated. */
    method Extend(bytes: seq<byte>)
      requires Valid() && len + |bytes| <= store.Length
      modifies this`len, store
      ensures Valid() && Contents() == old(Contents()) + bytes
    {
      forall i | 0 <= i < |bytes| { store[len + i] := bytes[i]; }
      assert store[..len + |bytes|] == old(store[..len]) + bytes;
      len := len + |bytes|;
    }

    /** Makes room for `additional` more bytes if the allocator grants it; a refusal changes nothing.
        The capacity never shrinks. */
    method TryReserve(additional: nat, granted: bool) returns (ok: bool)
      requires Valid()
      modifies this`store
      ensures Valid() && Contents() == old(Contents()) && store.Length >= old(store.Length)
      ensures ok <==> granted || len + additional <= old(store.Length)
      ensures ok ==> len + additional <= store.Length
      ensures !ok || len + additional <= old(store.Length) ==> store == old(store)
      ensures store == old(store) || fresh(store)
    {
      ok := true;
      if len + additional > store.Length {
        ok := granted;
        if granted {
          var bigger := new byte[len + additional](_ => 0);
          forall i | 0 <= i < len { bigger[i] := store[i]; }
          assert bigger[..len] == store[..len];
          store := bigger;
        }
      }
    }
  }

  /** The limit a requested size stands for: itself, and the default of 10 MiB for 0. */
  function LimitFor(requested: nat): (limit: nat)
    ensures requested > 0 ==> limit == requested
    ensures requested == 0 ==> limit == 10 * 1024 * 1024
  {
    if requested > 0 then requested else DEFAULT_MAX_BUFFER_SIZE
  }

  /** The shared body of both `set_max_buffer_size`: reserves first, and the caller commits the limit only
      if that succeeded. `limit - len` saturates at zero. */
  method ReserveFor(buffer: MessageBuffer, requested: nat, granted: bool) returns (ok: bool)
    requires buffer.Valid()
    modifies buffer`store
    ensures buffer.Valid() && buffer.Contents() == old(buffer.Contents())
    ensures buffer.store.Length >= old(buffer.store.Length)
    ensures ok ==> LimitFor(requested) <= buffer.store.Length
    ensures !ok ==> buffer.store == old(buffer.store)
    ensures ok <==> granted || LimitFor(requested) <= old(buffer.store.Length)
    ensures buffer.store == old(buffer.store) || fresh(buffer.store)
  {
    var limit := LimitFor(requested);
    var additional := if limit > buffer.len then limit - buffer.len else 0;
    ok := buffer.TryReserve(additional, granted);
  }
}
