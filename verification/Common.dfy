/** Vocabulary shared by all models: identifiers, optional values and error results. */
module Common {

  datatype Option<+T> = None | Some(value: T)

  datatype Result<+T, +E> = Ok(value: T) | Err(error: E)

  /** The only thing modelled about an error is that it happened. */
  datatype Failure = Failure

  type Address = nat
  type Hash = nat
  type AuctionId = int

  /** The three parts an order uid is made of; `OrderEncoding` proves the 56-byte form equivalent. */
  datatype OrderUid = OrderUid(digest: Hash, owner: Address, validTo: nat)

  /** Position of an event on the chain; primary key of the event tables. */
  datatype Index = Index(block: int, log: int)

  const I64_MAX: int := 0x7fff_ffff_ffff_ffff
  const U256_MAX: int :=
    0xffff_ffff_ffff_ffff_ffff_ffff_ffff_ffff_ffff_ffff_ffff_ffff_ffff_ffff_ffff_ffff

  datatype OrderKind = Buy | Sell
}
