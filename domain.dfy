/** The values the pages pass around: dog ids, dog records and the signed-in user. */
module Domain {
  /** Dog ids are the opaque strings the catalog service issues. */
  type DogId = string

  /** A dog record as the batch-resolve call returns it; only `id` takes part in any logic. */
  datatype Dog = Dog(id: DogId, name: string, breed: string, age: nat, zipCode: string, img: string)

  /** The user held by the authentication context; `email` is the key of their favorites. */
  datatype User = User(name: string, email: string)
}
