/** The user service: the profile of the signed-in user and the user's
    postal addresses. The caller's id comes from a verified access token;
    an address may be read, changed or deleted only by the user who owns
    it. */
module UserService {
  import opened Util
  import opened Store

  /** A user as returned to clients: the password hash and the pending
      verification code are removed. */
  datatype UserView = UserView(id: Id, email: string, name: Name, phone: Option<string>, isVerified: bool)

  datatype Profile = Profile(user: UserView, addresses: Option<map<Id, Address>>)

  datatype UserPatch = UserPatch(name: Option<Name>, phone: Option<string>)

  datatype AddressInput = AddressInput(
    address: string,
    streetName: string,
    landmark: string,
    locality: Option<string>,
    pincode: int,
    city: string,
    state: string,
    addresstype: bool)

  /** Changes to an address; absent fields are left alone. */
  datatype AddressPatch = AddressPatch(
    address: Option<string>,
    streetName: Option<string>,
    landmark: Option<string>,
    locality: Option<string>,
    pincode: Option<int>,
    city: Option<string>,
    state: Option<string>,
    addresstype: Option<bool>)

  const AccessDenied := "Access to resources denied"

  function PublicView(id: Id, u: User): UserView {
    UserView(id, u.email, u.name, u.phone, u.isVerified)
  }

  /** The view does not depend on the password hash or the pending code. */
  lemma {:induction false} PublicViewHidesSecrets(id: Id, u: User, hash: Digest, token: Option<string>)
    ensures PublicView(id, u.(hash := hash, token := token)) == PublicView(id, u)
    ensures PublicView(id, u).email == u.email && PublicView(id, u).isVerified == u.isVerified
  {
  }

  /** The addresses a user owns, keyed by address id. */
  function AddressesOf(addresses: map<Id, Address>, userId: Id): (r: map<Id, Address>)
    ensures forall a :: a in r <==> a in addresses && addresses[a].userId == userId
    ensures forall a :: a in r ==> r[a] == addresses[a]
  {
    map a | a in addresses && addresses[a].userId == userId :: addresses[a]
  }

  /** `getUser`: the user without secrets, with the user's addresses when
      asked for. A malformed id is refused by the storage layer; a missing
      user makes the service fail while removing the hash of nothing. */
  method GetUser(db: Store, userId: Id, withAddresses: bool) returns (r: Result<Profile>)
    ensures !IsObjectId(userId) ==> r == Err(Forbidden("Credentials invalid"))
    ensures IsObjectId(userId) && userId !in db.users ==> r == Err(Unhandled("TypeError"))
    ensures IsObjectId(userId) && userId in db.users ==>
      r.Ok? && r.value.user == PublicView(userId, db.users[userId]) &&
      (withAddresses <==> r.value.addresses.Some?) &&
      (withAddresses ==> r.value.addresses.value == AddressesOf(db.addresses, userId))
  {
    if !IsObjectId(userId) {
      return Err(Forbidden("Credentials invalid"));
    }
    if userId !in db.users {
      return Err(Unhandled("TypeError"));
    }
    var owned := if withAddresses then Some(AddressesOf(db.addresses, userId)) else None;
    r := Ok(Profile(PublicView(userId, db.users[userId]), owned));
  }

  /** The stored user after a profile edit: each field present in the
      request replaces the stored one. */
  function PatchUser(u: User, patch: UserPatch): User {
    u.(name := if patch.name.Some? then patch.name.value else u.name,
       phone := if patch.phone.Some? then patch.phone else u.phone)
  }

  /** A profile edit cannot change the credentials, the verification state
      or the pending code, and repeating it changes nothing more. */
  lemma {:induction false} PatchUserFacts(u: User, patch: UserPatch)
    ensures var r := PatchUser(u, patch);
      r.email == u.email && r.hash == u.hash && r.isVerified == u.isVerified && r.token == u.token &&
      (patch.name.None? ==> r.name == u.name) && (patch.phone.None? ==> r.phone == u.phone)
    ensures PatchUser(PatchUser(u, patch), patch) == PatchUser(u, patch)
  {
  }

  /** Changing fields other than email and code keeps the accounts valid. */
  lemma {:induction false} ReplaceUserKeepsValid(users: map<Id, User>, id: Id, u: User)
    requires AccountsValid(users) && id in users
    requires u.email == users[id].email && u.token == users[id].token
    ensures AccountsValid(users[id := u])
  {
  }

  method EditUser(db: Store, userId: Id, patch: UserPatch) returns (r: Result<UserView>)
    requires db.Valid()
    modifies db`users
    ensures db.Valid()
    ensures !IsObjectId(userId) || userId !in old(db.users) ==>
      r == Err(BadRequest) && db.users == old(db.users)
    ensures IsObjectId(userId) && userId in old(db.users) ==>
      db.users == old(db.users)[userId := PatchUser(old(db.users)[userId], patch)] &&
      r == Ok(PublicView(userId, db.users[userId]))
  {
    if !IsObjectId(userId) || userId !in db.users {
      return Err(BadRequest);
    }
    var updated := PatchUser(db.users[userId], patch);
    ReplaceUserKeepsValid(db.users, userId, updated);
    db.users := db.users[userId := updated];
    r := Ok(PublicView(userId, updated));
  }

  /** `addAddress`: a new address owned by the caller. */
  method AddAddress(db: Store, userId: Id, input: AddressInput, id: Id) returns (r: Result<Address>)
    requires id !in db.addresses
    modifies db`addresses
    ensures !IsObjectId(userId) ==> r == Err(BadRequest) && db.addresses == old(db.addresses)
    ensures IsObjectId(userId) ==>
      r.Ok? && r.value.userId == userId &&
      db.addresses == old(db.addresses)[id := r.value] &&
      r.value == Address(userId, input.address, input.streetName, input.landmark, input.locality,
                         input.pincode, input.city, input.state, input.addresstype)
  {
    if !IsObjectId(userId) {
      return Err(BadRequest);
    }
    var a := Address(userId, input.address, input.streetName, input.landmark, input.locality,
                     input.pincode, input.city, input.state, input.addresstype);
    db.addresses := db.addresses[id := a];
    r := Ok(a);
  }

  predicate Owns(addresses: map<Id, Address>, userId: Id, addressId: Id) {
    addressId in addresses && addresses[addressId].userId == userId
  }

  /** `getAddress`: an address is returned only to its owner. */
  method GetAddress(db: Store, userId: Id, addressId: Id) returns (r: Result<Address>)
    ensures !IsObjectId(addressId) || !IsObjectId(userId) ==> r == Err(BadRequest)
    ensures IsObjectId(addressId) && IsObjectId(userId) ==>
      (r.Ok? <==> Owns(db.addresses, userId, addressId)) &&
      (r.Ok? ==> r.value == db.addresses[addressId]) &&
      (r.Err? ==> r == Err(Unauthorized))
  {
    if !IsObjectId(addressId) || !IsObjectId(userId) {
      return Err(BadRequest);
    }
    if !Owns(db.addresses, userId, addressId) {
      return Err(Unauthorized);
    }
    r := Ok(db.addresses[addressId]);
  }

  /** An address after an edit: each field present in the request replaces
      the stored one. */
  function PatchAddress(a: Address, patch: AddressPatch): Address {
    a.(address := if patch.address.Some? then patch.address.value else a.address,
       streetName := if patch.streetName.Some? then patch.streetName.value else a.streetName,
       landmark := if patch.landmark.Some? then patch.landmark.value else a.landmark,
       locality := if patch.locality.Some? then patch.locality else a.locality,
       pincode := if patch.pincode.Some? then patch.pincode.value else a.pincode,
       city := if patch.city.Some? then patch.city.value else a.city,
       state := if patch.state.Some? then patch.state.value else a.state,
       addresstype := if patch.addresstype.Some? then patch.addresstype.value else a.addresstype)
  }

  /** An edit never moves an address to another user, and an empty edit
      changes nothing. */
  lemma {:induction false} PatchAddressFacts(a: Address, patch: AddressPatch)
    ensures PatchAddress(a, patch).userId == a.userId
    ensures patch == AddressPatch(None, None, None, None, None, None, None, None) ==> PatchAddress(a, patch) == a
    ensures PatchAddress(PatchAddress(a, patch), patch) == PatchAddress(a, patch)
  {
  }

  /** `editAddress`: only the owner may edit; anyone else, or an unknown
      address, is denied access. */
  method EditAddress(db: Store, userId: Id, addressId: Id, patch: AddressPatch) returns (r: Result<Address>)
    modifies db`addresses
    ensures !IsObjectId(addressId) ==> r == Err(BadRequest) && db.addresses == old(db.addresses)
    ensures IsObjectId(addressId) && !Owns(old(db.addresses), userId, addressId) ==>
      r == Err(Forbidden(AccessDenied)) && db.addresses == old(db.addresses)
    ensures IsObjectId(addressId) && Owns(old(db.addresses), userId, addressId) ==>
      r == Ok(PatchAddress(old(db.addresses)[addressId], patch)) &&
      db.addresses == old(db.addresses)[addressId := r.value]
  {
    if !IsObjectId(addressId) {
      return Err(BadRequest);
    }
    if !Owns(db.addresses, userId, addressId) {
      return Err(Forbidden(AccessDenied));
    }
    r := Ok(PatchAddress(db.addresses[addressId], patch));
    db.addresses := db.addresses[addressId := r.value];
  }

  /** `deleteAddress`: only the owner may delete, and exactly that address
      goes. */
  method DeleteAddress(db: Store, userId: Id, addressId: Id) returns (r: Result<()>)
    modifies db`addresses
    ensures !IsObjectId(addressId) ==> r == Err(BadRequest) && db.addresses == old(db.addresses)
    ensures IsObjectId(addressId) && !Owns(old(db.addresses), userId, addressId) ==>
      r == Err(Forbidden(AccessDenied)) && db.addresses == old(db.addresses)
    ensures IsObjectId(addressId) && Owns(old(db.addresses), userId, addressId) ==>
      r == Ok(()) && db.addresses == old(db.addresses) - {addressId}
  {
    if !IsObjectId(addressId) {
      return Err(BadRequest);
    }
    if !Owns(db.addresses, userId, addressId) {
      return Err(Forbidden(AccessDenied));
    }
    db.addresses := db.addresses - {addressId};
    r := Ok(());
  }
}
