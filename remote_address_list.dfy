/** The transport's list of remote addresses: it assigns every socket address
    a stream id, which is its position in the index array, and keeps each
    entry's state (active, inactive, retired).

    Entries are values stored in the array; a Java reference to an entry is
    its stream id here, and changing an entry's state replaces the array
    element. */
module Transport {
  import opened Common

  datatype AddressState = Active | Inactive | Retired

  datatype SocketAddress = SocketAddress(host: string, port: int)

  datatype RemoteAddress = RemoteAddress(streamId: nat, address: SocketAddress, state: AddressState)

  /** Same socket address and a state in the mask (isInAnyState). */
  predicate Matches(r: RemoteAddress, addr: SocketAddress, mask: set<AddressState>)
  {
    r.address == addr && r.state in mask
  }

  /** The position of the first entry, in index order, that matches. */
  function FirstMatch(s: seq<RemoteAddress>, addr: SocketAddress, mask: set<AddressState>): (r: Option<nat>)
    ensures r.Some? ==> r.value < |s| && Matches(s[r.value], addr, mask)
    ensures r.Some? ==> forall j :: 0 <= j < r.value ==> !Matches(s[j], addr, mask)
    ensures r.None? ==> forall j :: 0 <= j < |s| ==> !Matches(s[j], addr, mask)
  {
    if |s| == 0 then None
    else
      match FirstMatch(s[..|s| - 1], addr, mask)
      case Some(k) => Some(k)
      case None => if Matches(s[|s| - 1], addr, mask) then Some(|s| - 1) else None
  }

  /** Every entry sits at the position given by its stream id. */
  predicate StreamIdsMatch(s: seq<RemoteAddress>)
  {
    forall i :: 0 <= i < |s| ==> s[i].streamId == i
  }

  /** A first match is found only at the first matching position; so the
      search's result is determined by the entries. */
  lemma FirstMatchIsUnique(s: seq<RemoteAddress>, addr: SocketAddress, mask: set<AddressState>, k: nat)
    requires k < |s| && Matches(s[k], addr, mask)
    requires forall j :: 0 <= j < k ==> !Matches(s[j], addr, mask)
    ensures FirstMatch(s, addr, mask) == Some(k)
  {
  }

  /** When no active entry has the address but an active-or-inactive one does,
      that entry is inactive. */
  lemma SecondSearchFindsInactive(s: seq<RemoteAddress>, addr: SocketAddress)
    requires FirstMatch(s, addr, {Active}).None?
    requires FirstMatch(s, addr, {Active, Inactive}).Some?
    ensures s[FirstMatch(s, addr, {Active, Inactive}).value].state == Inactive
  {
    var k := FirstMatch(s, addr, {Active, Inactive}).value;
    assert !Matches(s[k], addr, {Active});
  }

  /** Appending an entry whose stream id is the old size keeps every entry at
      its stream id, and changing an entry's state does too. */
  lemma StreamIdsKept(s: seq<RemoteAddress>, addr: SocketAddress, k: nat, st: AddressState)
    requires StreamIdsMatch(s)
    ensures StreamIdsMatch(s + [RemoteAddress(|s|, addr, Active)])
    ensures k < |s| ==> StreamIdsMatch(s[k := s[k].(state := st)])
  {
  }

  class RemoteAddressList {
    var size: nat
    var index: array<RemoteAddress>
    /** the stream ids handed to the added-consumer, in call order */
    var added: seq<nat>

    ghost predicate Valid()
      reads this, index
    {
      size == index.Length && StreamIdsMatch(index[..])
    }

    constructor()
      ensures Valid() && size == 0 && added == [] && fresh(index)
    {
      size := 0;
      index := new RemoteAddress[0];
      added := [];
    }

    /** getByStreamId: the entry at that position, if there is one. */
    method GetByStreamId(streamId: nat) returns (r: Option<RemoteAddress>)
      requires Valid()
      ensures streamId < size <==> r.Some?
      ensures r.Some? ==> r.value == index[streamId] && r.value.streamId == streamId
    {
      if streamId < size {
        r := Some(index[streamId]);
      } else {
        r := None;
      }
    }

    /** getByAddress with a state mask: the stream id of the first entry in
        index order with that address and a state in the mask. */
    method GetByAddressIn(addr: SocketAddress, mask: set<AddressState>) returns (r: Option<nat>)
      requires Valid()
      ensures r == FirstMatch(index[..], addr, mask)
      ensures r.Some? ==> r.value < size && index[r.value].streamId == r.value
    {
      var i := 0;
      while i < size
        invariant 0 <= i <= size
        invariant forall j :: 0 <= j < i ==> !Matches(index[j], addr, mask)
        decreases size - i
      {
        if index[i].address == addr && index[i].state in mask {
          FirstMatchIsUnique(index[..], addr, mask, i);
          return Some(i);
        }
        i := i + 1;
      }
      r := None;
    }

    /** getByAddress: only active entries are found. */
    method GetByAddress(addr: SocketAddress) returns (r: Option<nat>)
      requires Valid()
      ensures r == FirstMatch(index[..], addr, {Active})
      ensures r.Some? ==> index[r.value].address == addr && index[r.value].state == Active
    {
      r := GetByAddressIn(addr, {Active});
    }

    /** retire: the stream is never used again. For an unknown stream id Java
        throws a NullPointerException; here `ok` is false and nothing
        changes. */
    method Retire(streamId: nat) returns (ok: bool)
      requires Valid()
      modifies index
      ensures Valid()
      ensures ok <==> streamId < size
      ensures ok ==> index[..] == old(index[..])[streamId := old(index[streamId]).(state := Retired)]
      ensures !ok ==> index[..] == old(index[..])
    {
      ok := streamId < size;
      if ok {
        index[streamId] := index[streamId].(state := Retired);
      }
    }

    /** deactivate: the stream is inactive until its address is registered
        again; its stream id stays. */
    method Deactivate(streamId: nat) returns (ok: bool)
      requires Valid()
      modifies index
      ensures Valid()
      ensures ok <==> streamId < size
      ensures ok ==> index[..] == old(index[..])[streamId := old(index[streamId]).(state := Inactive)]
      ensures !ok ==> index[..] == old(index[..])
    {
      ok := streamId < size;
      if ok {
        index[streamId] := index[streamId].(state := Inactive);
      }
    }

    /** deactivateAll: every entry becomes inactive, and nothing else
        changes. */
    method DeactivateAll()
      requires Valid()
      modifies index
      ensures Valid()
      ensures forall i :: 0 <= i < size ==> index[i] == old(index[i]).(state := Inactive)
    {
      var i := 0;
      while i < size
        invariant 0 <= i <= size
        invariant forall j :: 0 <= j < i ==> index[j] == old(index[j]).(state := Inactive)
        invariant forall j :: i <= j < size ==> index[j] == old(index[j])
        decreases size - i
      {
        index[i] := index[i].(state := Inactive);
        i := i + 1;
      }
    }

    /** register: an active entry of that address is returned as it is; else
        the first inactive one is reactivated; else a new entry is appended
        with the next stream id. The added-consumer sees the entry in the
        last two cases. */
    method Register(addr: SocketAddress) returns (streamId: nat)
      requires Valid()
      modifies this, index
      ensures Valid()
      ensures streamId < size && index[streamId].address == addr && index[streamId].state == Active
      ensures match FirstMatch(old(index[..]), addr, {Active})
        case Some(k) =>
          streamId == k && index == old(index) && size == old(size)
          && index[..] == old(index[..]) && added == old(added)
        case None =>
          match FirstMatch(old(index[..]), addr, {Active, Inactive})
          case Some(k) =>
            && streamId == k && index == old(index) && size == old(size)
            && old(index[k]).state == Inactive
            && index[..] == old(index[..])[k := old(index[k]).(state := Active)]
            && added == old(added) + [k]
          case None =>
            && streamId == old(size) && size == old(size) + 1 && fresh(index)
            && index[..] == old(index[..]) + [RemoteAddress(old(size), addr, Active)]
            && added == old(added) + [streamId]
    {
      var result := GetByAddress(addr);
      if result.Some? {
        return result.value;
      }
      result := GetByAddressIn(addr, {Active, Inactive});
      if result.None? {
        streamId := Append(addr);
      } else {
        streamId := result.value;
        SecondSearchFindsInactive(index[..], addr);
        if index[streamId].state == Inactive {
          index[streamId] := index[streamId].(state := Active);
        }
      }
      added := added + [streamId];
    }

    /** The array growth of register: a copy one longer, holding the new entry
        at the old size, is published together with the new size. */
    method Append(addr: SocketAddress) returns (streamId: nat)
      requires Valid()
      modifies this`index, this`size
      ensures Valid()
      ensures streamId == old(size) && size == old(size) + 1 && fresh(index)
      ensures index[..] == old(index[..]) + [RemoteAddress(old(size), addr, Active)]
    {
      var prevSize := size;
      var newAddresses := new RemoteAddress[prevSize + 1];
      var i := 0;
      while i < prevSize
        invariant 0 <= i <= prevSize
        invariant index == old(index) && size == prevSize
        invariant newAddresses[..i] == index[..i]
        decreases prevSize - i
      {
        newAddresses[i] := index[i];
        i := i + 1;
      }
      newAddresses[prevSize] := RemoteAddress(prevSize, addr, Active);
      assert newAddresses[..] == index[..] + [RemoteAddress(prevSize, addr, Active)];
      StreamIdsKept(index[..], addr, 0, Active);
      index := newAddresses;
      size := prevSize + 1;
      streamId := prevSize;
    }
  }
}
