/** Construction and partial update of clients: reference-data lookups for
    gender and status, and password encryption through a supplied
    function. */
module ClientFactory {
  import opened Domain

  /** The fields of a client-creation request; gender and status are codes. */
  datatype NewClient = NewClient(
    name: string,
    gender: string,
    age: int,
    identification: string,
    address: string,
    phone: string,
    password: string,
    status: string)

  /** `createFromDTO`: an absent or inactive gender code fails first, then an
      absent or inactive status code; otherwise a client whose password is the
      encrypted one. Its id is assigned later, on saving. */
  function CreateFromDto(dto: NewClient, genders: Table, statuses: Table, encrypt: string -> string)
    : (r: Result<Client>)
    ensures FindActive(genders, dto.gender).None? ==> r == Failure(NotFound(GenderMissing))
    ensures FindActive(genders, dto.gender).Some? && FindActive(statuses, dto.status).None? ==>
      r == Failure(NotFound(StatusMissing))
    ensures r.Success? <==> FindActive(genders, dto.gender).Some? && FindActive(statuses, dto.status).Some?
    ensures r.Success? ==>
      && r.value.gender == genders[dto.gender] && r.value.gender.active
      && r.value.status == statuses[dto.status] && r.value.status.active
      && r.value.password == encrypt(dto.password)
      && r.value.name == dto.name && r.value.age == dto.age
      && r.value.identification == dto.identification
      && r.value.address == dto.address && r.value.phone == dto.phone
      && r.value.clientId.None?
  {
    match FindActive(genders, dto.gender)
    case None => Failure(NotFound(GenderMissing))
    case Some(gender) =>
      match FindActive(statuses, dto.status)
      case None => Failure(NotFound(StatusMissing))
      case Some(status) =>
        Success(Client(None, dto.name, gender, dto.age, dto.identification,
                       dto.address, dto.phone, encrypt(dto.password), status))
  }

  /** A supplied (non-null) value replaces the current one. */
  function Replace<T>(supplied: Option<T>, current: T): T
  {
    match supplied
    case Some(v) => v
    case None => current
  }

  /** `updateClient`: each supplied argument replaces its field and each
      absent one keeps it; the id and the identification are never changed. */
  function UpdateClient(client: Client, name: Option<string>, gender: Option<Catalog>, age: Option<int>,
                        address: Option<string>, phone: Option<string>, status: Option<Catalog>,
                        encryptedPassword: Option<string>): (r: Client)
    ensures name.Some? ==> r.name == name.value
    ensures name.None? ==> r.name == client.name
    ensures gender.Some? ==> r.gender == gender.value
    ensures gender.None? ==> r.gender == client.gender
    ensures age.Some? ==> r.age == age.value
    ensures age.None? ==> r.age == client.age
    ensures address.Some? ==> r.address == address.value
    ensures address.None? ==> r.address == client.address
    ensures phone.Some? ==> r.phone == phone.value
    ensures phone.None? ==> r.phone == client.phone
    ensures status.Some? ==> r.status == status.value
    ensures status.None? ==> r.status == client.status
    ensures encryptedPassword.Some? ==> r.password == encryptedPassword.value
    ensures encryptedPassword.None? ==> r.password == client.password
    ensures r.identification == client.identification && r.clientId == client.clientId
  {
    client.(name := Replace(name, client.name),
            gender := Replace(gender, client.gender),
            age := Replace(age, client.age),
            address := Replace(address, client.address),
            phone := Replace(phone, client.phone),
            status := Replace(status, client.status),
            password := Replace(encryptedPassword, client.password))
  }

  /** With every argument absent the client comes back unchanged. */
  lemma UpdateWithNothingIsIdentity(client: Client)
    ensures UpdateClient(client, None, None, None, None, None, None, None) == client
  {
  }

  /** Applying the same update twice is the same as applying it once. */
  lemma UpdateIsIdempotent(client: Client, name: Option<string>, gender: Option<Catalog>, age: Option<int>,
                           address: Option<string>, phone: Option<string>, status: Option<Catalog>,
                           encryptedPassword: Option<string>)
    ensures var once := UpdateClient(client, name, gender, age, address, phone, status, encryptedPassword);
      UpdateClient(once, name, gender, age, address, phone, status, encryptedPassword) == once
  {
  }
}
