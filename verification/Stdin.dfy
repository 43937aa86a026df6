/** Stdin handed to the attempts of a command and of its clones. */
module Stdin {
  import opened Types

  /** A reader is known by its number; what it yields is the caller's affair. */
  datatype StdinData = Unset | Bytes(data: seq<Byte>) | Reader(id: nat) | AsyncReader(id: nat)

  /** What one attempt gets. `Nothing` leaves the child with the parent's stdin. */
  datatype Given = Nothing | Fed(data: seq<Byte>) | Read(id: nat) | ReadAsync(id: nat)

  /** Whatever the order of attempts and clones: bytes are handed out the same every time, a reader
      once, to the first taker, and the later ones get empty bytes, not the parent's stdin. */
  predicate HandedOut(data: StdinData, given: seq<Given>) {
    match data
    case Unset => forall k :: 0 <= k < |given| ==> given[k] == Nothing
    case Bytes(b) => forall k :: 0 <= k < |given| ==> given[k] == Fed(b)
    case Reader(id) =>
      given != [] ==> given[0] == Read(id) && forall k :: 0 < k < |given| ==> given[k] == Fed([])
    case AsyncReader(id) =>
      given != [] ==> given[0] == ReadAsync(id) && forall k :: 0 < k < |given| ==> given[k] == Fed([])
  }

  /** An `Option<SharedStdin>`: clones of a command share the one object. */
  class SharedStdin {
    const data: StdinData
    var slot: Option<nat>            // the reader, until it is taken
    ghost var given: seq<Given>      // what has been handed out

    constructor (data: StdinData)
      ensures Valid() && given == [] && this.data == data
    {
      this.data := data;
      slot := if data.Reader? || data.AsyncReader? then Some(data.id) else None;
      given := [];
    }

    ghost predicate Valid()
      reads this
    {
      && HandedOut(data, given)
      && slot == (if (data.Reader? || data.AsyncReader?) && given == [] then Some(data.id) else None)
    }

    predicate SyncCompatible() { !data.AsyncReader? }

    /** `attempt_stdin_sync` and `take_for_sync`. */
    method TakeForSync() returns (g: Given)
      requires Valid() && SyncCompatible()
      modifies this
      ensures Valid() && given == old(given) + [g] && !g.ReadAsync?
      ensures data.Unset? ==> g == Nothing
      ensures data.Bytes? ==> g == Fed(data.data)
      ensures data.Reader? ==> g == if old(given) == [] then Read(data.id) else Fed([])
    {
      g := TakeForAsync();
    }

    /** `attempt_stdin_async` and `take_for_async`. */
    method TakeForAsync() returns (g: Given)
      requires Valid()
      modifies this
      ensures Valid() && given == old(given) + [g]
      ensures SyncCompatible() ==> !g.ReadAsync?
      ensures data.Unset? ==> g == Nothing
      ensures data.Bytes? ==> g == Fed(data.data)
      ensures data.Reader? ==> g == if old(given) == [] then Read(data.id) else Fed([])
      ensures data.AsyncReader? ==> g == if old(given) == [] then ReadAsync(data.id) else Fed([])
    {
      match data {
        case Unset => g := Nothing;
        case Bytes(b) => g := Fed(b);
        case Reader(_) => g := if slot.Some? then Read(slot.value) else Fed([]);
        case AsyncReader(_) => g := if slot.Some? then ReadAsync(slot.value) else Fed([]);
      }
      slot := None;
      given := given + [g];
    }
  }
}
