/** Values shared by every layer of the storage engine. */
module Types {

  /** Tenant-scoped object identity: a 128-bit digest and the hash of the owning tenant. */
  datatype BlockKey = BlockKey(digestHi: nat, digestLo: nat, tenant: nat)

  /** Physical placement of a value: `offset` is relative to the start of extent `extent`. */
  datatype SlotRef = SlotRef(cls: nat, extent: nat, slot: nat, size: nat, offset: nat)

  /** A table position: extent number and slot number. */
  datatype Place = Place(extent: nat, slot: nat)

  type Byte = b: int | 0 <= b < 256

  datatype Option<+T> = None | Some(value: T)

  function PlaceOf(r: SlotRef): Place {
    Place(r.extent, r.slot)
  }
}
