/**
 * The street address that stores carry (the same six string fields in every
 * file that uses one), and a store: an id and its address.
 */
module Addresses {
  datatype Address = Address(
    houseNumber: string,
    street: string,
    city: string,
    state: string,
    postCode: string,
    country: string)

  datatype Store = Store(id: int, address: Address)
}
