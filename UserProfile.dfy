/** The user profile page (src/pages/UserProfilePage.tsx): the minimum-length rules of the
    profile and address forms, the address book's edit / add / delete operations and
    dialog state, and the avatar's initials fallback. */
module UserProfile {
  import opened Wrappers
  import opened Lists
  import opened Text

  datatype Address = Address(
    id: string, street: string, city: string, state: string, zip: string, isDefault: Option<bool>)

  /** The address form's values; `id` and `isDefault` are optional fields. */
  datatype AddressForm = AddressForm(
    id: Option<string>, street: string, city: string, state: string, zip: string, isDefault: Option<bool>)

  datatype ProfileForm = ProfileForm(name: string, email: string, phone: Option<string>, avatarUrl: Option<string>)

  const InitialUserProfile: ProfileForm := ProfileForm(
    "John Doe", "john.doe@example.com", Some("123-456-7890"), Some("https://images.unsplash.com/photo-1535713875002-d1d0cf377fde"))

  const InitialAddresses: seq<Address> := [
    Address("addr1", "123 Main St", "Anytown", "CA", "90210", Some(true)),
    Address("addr2", "456 Oak Ave", "Otherville", "NY", "10001", None)
  ]

  /** The profile schema's length rules: name of at least 2 characters, phone (when given) of at
      least 10. The email and URL formats are not modelled. */
  predicate ProfileLengthsValid(p: ProfileForm) {
    |p.name| >= 2 && (p.phone.Some? ==> |p.phone.value| >= 10)
  }

  /** The address schema's length rules: street 3, city 2, state 2, zip 5. */
  predicate AddressFieldsValid(street: string, city: string, state: string, zip: string) {
    |street| >= 3 && |city| >= 2 && |state| >= 2 && |zip| >= 5
  }

  predicate AddressFormValid(f: AddressForm) {
    AddressFieldsValid(f.street, f.city, f.state, f.zip)
  }

  predicate AddressValid(a: Address) {
    AddressFieldsValid(a.street, a.city, a.state, a.zip)
  }

  predicate AllValid(addresses: seq<Address>) {
    forall i :: 0 <= i < |addresses| ==> AddressValid(addresses[i])
  }

  function AddressId(a: Address): string {
    a.id
  }

  /** No two addresses carry the same id. The page does not enforce this. */
  predicate UniqueIds(addresses: seq<Address>) {
    DistinctBy(addresses, AddressId)
  }

  /** `{ ...addr, ...data }`: the form's fields win; an absent optional field keeps the old one. */
  function Merge(addr: Address, data: AddressForm): Address {
    Address(data.id.GetOr(addr.id), data.street, data.city, data.state, data.zip,
            if data.isDefault.Some? then data.isDefault else addr.isDefault)
  }

  /** `addresses.map(addr => addr.id === id ? { ...addr, ...data } : addr)`. */
  function EditById(addresses: seq<Address>, id: string, data: AddressForm): (r: seq<Address>)
    ensures |r| == |addresses|
    ensures forall i :: 0 <= i < |r| ==>
              r[i] == if addresses[i].id == id then Merge(addresses[i], data) else addresses[i]
  {
    seq(|addresses|, i requires 0 <= i < |addresses| =>
      if addresses[i].id == id then Merge(addresses[i], data) else addresses[i])
  }

  /** The id a new address gets: `addr${Date.now()}`. */
  function GeneratedId(now: nat): string {
    "addr" + Dec(now)
  }

  /** `{ ...data, id: generatedId }`. */
  function NewAddress(data: AddressForm, now: nat): Address {
    Address(GeneratedId(now), data.street, data.city, data.state, data.zip, data.isDefault)
  }

  function OtherId(id: string): Address -> bool {
    (addr: Address) => addr.id != id
  }

  /** `addresses.filter(addr => addr.id !== id)`. */
  function DeleteById(addresses: seq<Address>, id: string): seq<Address> {
    Filter(addresses, OtherId(id))
  }

  /** `name?.substring(0, 2).toUpperCase() || 'U'`. */
  function AvatarFallback(name: string): string {
    var initials := Upper(if |name| <= 2 then name else name[..2]);
    if initials == "" then "U" else initials
  }

  // ---------------------------------------------------------------------------

  /** The starting profile and addresses satisfy the form rules, and the address ids are distinct. */
  lemma InitialDataValid()
    ensures ProfileLengthsValid(InitialUserProfile)
    ensures AllValid(InitialAddresses) && UniqueIds(InitialAddresses)
  {
  }

  /** An address is valid exactly when its fields meet the four minimum lengths, and a submitted
      valid form yields valid addresses whether it edits or adds. */
  lemma FormValidity(addr: Address, data: AddressForm, now: nat)
    ensures AddressValid(addr) <==> |addr.street| >= 3 && |addr.city| >= 2 && |addr.state| >= 2 && |addr.zip| >= 5
    ensures AddressFormValid(data) ==> AddressValid(Merge(addr, data)) && AddressValid(NewAddress(data, now))
  {
  }

  /** Editing replaces the fields of the matching addresses with the form's, taking the form's
      id when it carries one; length, order and every other address (including its default flag)
      stay as they were, and a valid form keeps the book valid. Ids stay distinct when the form
      carries no id or the edited one. */
  lemma EditProperties(addresses: seq<Address>, id: string, data: AddressForm)
    requires AllValid(addresses) && AddressFormValid(data)
    ensures AllValid(EditById(addresses, id, data))
    ensures forall i :: 0 <= i < |addresses| && addresses[i].id == id ==>
              var a := EditById(addresses, id, data)[i];
              a.id == data.id.GetOr(id) && a.street == data.street && a.city == data.city &&
              a.state == data.state && a.zip == data.zip
    ensures (forall i :: 0 <= i < |addresses| ==> addresses[i].id != id) ==>
              EditById(addresses, id, data) == addresses
    ensures UniqueIds(addresses) && (data.id.None? || data.id == Some(id)) ==>
              UniqueIds(EditById(addresses, id, data))
  {
    var r := EditById(addresses, id, data);
    if data.id.None? || data.id == Some(id) {
      assert forall i :: 0 <= i < |r| ==> r[i].id == addresses[i].id;
    }
  }

  /** Adding appends one address carrying the generated id after the unchanged ones, and keeps
      the book valid. Nothing checks the id: the ids stay distinct exactly when no stored
      address already carries it. */
  lemma AddProperties(addresses: seq<Address>, data: AddressForm, now: nat)
    requires AllValid(addresses) && AddressFormValid(data)
    ensures var r := addresses + [NewAddress(data, now)];
            |r| == |addresses| + 1 && r[..|addresses|] == addresses &&
            r[|addresses|].id == GeneratedId(now) && AllValid(r)
    ensures UniqueIds(addresses) ==>
              (UniqueIds(addresses + [NewAddress(data, now)]) <==>
               forall i :: 0 <= i < |addresses| ==> addresses[i].id != GeneratedId(now))
  {
    var r := addresses + [NewAddress(data, now)];
    if exists i :: 0 <= i < |addresses| && addresses[i].id == GeneratedId(now) {
      var i :| 0 <= i < |addresses| && addresses[i].id == GeneratedId(now);
      assert AddressId(r[i]) == AddressId(r[|addresses|]);
    }
  }

  /** Two distinct timestamps give distinct generated ids. */
  lemma GeneratedIdsDiffer(now1: nat, now2: nat)
    requires now1 != now2
    ensures GeneratedId(now1) != GeneratedId(now2)
  {
    var d1, d2 := Dec(now1), Dec(now2);
    assert GeneratedId(now1)[4..] == d1 && GeneratedId(now2)[4..] == d2;
    ParseDecOfDec(now1);
    ParseDecOfDec(now2);
  }

  /** Deleting removes every address with the id, keeps the others in order, and is idempotent. */
  lemma DeleteProperties(addresses: seq<Address>, id: string)
    ensures forall k :: 0 <= k < |DeleteById(addresses, id)| ==> DeleteById(addresses, id)[k].id != id
    ensures forall i :: 0 <= i < |addresses| && addresses[i].id != id ==> addresses[i] in DeleteById(addresses, id)
    ensures Subsequence(DeleteById(addresses, id), addresses)
    ensures DeleteById(DeleteById(addresses, id), id) == DeleteById(addresses, id)
  {
    var p := OtherId(id);
    FilterIsSubsequence(addresses, p);
    FilterIdempotent(addresses, p);
  }

  /** Deleting keeps every remaining address valid, and distinct ids stay distinct. */
  lemma DeleteKeepsBookValid(addresses: seq<Address>, id: string)
    requires AllValid(addresses)
    ensures AllValid(DeleteById(addresses, id))
    ensures UniqueIds(addresses) ==> UniqueIds(DeleteById(addresses, id))
  {
    var r := DeleteById(addresses, id);
    forall k | 0 <= k < |r|
      ensures AddressValid(r[k])
    {
      var j :| 0 <= j < |addresses| && addresses[j] == r[k];
    }
    if UniqueIds(addresses) {
      FilterKeepsDistinct(addresses, OtherId(id), AddressId);
    }
  }

  /** The fallback is "U" for an empty name, and otherwise the name's first one or two
      characters upper-cased. */
  lemma AvatarFallbackRule(name: string)
    ensures name == "" ==> AvatarFallback(name) == "U"
    ensures name != "" ==>
              |AvatarFallback(name)| == (if |name| < 2 then |name| else 2) &&
              forall i :: 0 <= i < |AvatarFallback(name)| ==> AvatarFallback(name)[i] == UpperChar(name[i])
    ensures forall i :: 0 <= i < |AvatarFallback(name)| ==> !('a' <= AvatarFallback(name)[i] <= 'z')
  {
  }

  // ---------------------------------------------------------------------------

  class ProfilePage {
    var userProfile: ProfileForm
    var addresses: seq<Address>
    var isAddressDialogOpen: bool
    var editingAddress: Option<Address>

    /** The saved profile and every stored address passed their schemas. */
    ghost predicate Valid()
      reads this
    {
      AllValid(addresses) && ProfileLengthsValid(userProfile)
    }

    constructor ()
      ensures Valid()
      ensures userProfile == InitialUserProfile && addresses == InitialAddresses
      ensures !isAddressDialogOpen && editingAddress == None
    {
      userProfile := InitialUserProfile;
      addresses := InitialAddresses;
      isAddressDialogOpen := false;
      editingAddress := None;
      InitialDataValid();
    }

    /** `onProfileSubmit`, reached only with data that passed the profile schema. */
    method OnProfileSubmit(data: ProfileForm)
      requires Valid() && ProfileLengthsValid(data)
      modifies this
      ensures Valid()
      ensures userProfile == data
      ensures addresses == old(addresses) && isAddressDialogOpen == old(isAddressDialogOpen)
      ensures editingAddress == old(editingAddress)
    {
      userProfile := data;
    }

    /** The avatar's fallback text for the saved profile. */
    method AvatarText() returns (text: string)
      ensures text == AvatarFallback(userProfile.name)
      ensures 1 <= |text| <= 2
    {
      AvatarFallbackRule(userProfile.name);
      text := AvatarFallback(userProfile.name);
    }

    /** `handleEditAddress`: remember the address being edited and open the dialog. */
    method HandleEditAddress(address: Address)
      requires Valid()
      modifies this
      ensures Valid()
      ensures editingAddress == Some(address) && isAddressDialogOpen
      ensures addresses == old(addresses) && userProfile == old(userProfile)
    {
      editingAddress := Some(address);
      isAddressDialogOpen := true;
    }

    /** `handleAddNewAddress`: forget any edit and open the dialog, so the next submit adds. */
    method HandleAddNewAddress()
      requires Valid()
      modifies this
      ensures Valid()
      ensures editingAddress == None && isAddressDialogOpen
      ensures addresses == old(addresses) && userProfile == old(userProfile)
    {
      editingAddress := None;
      isAddressDialogOpen := true;
    }

    /** The dialog's `onOpenChange`: closing it does not forget the edit. */
    method SetAddressDialogOpen(open: bool)
      requires Valid()
      modifies this
      ensures Valid()
      ensures isAddressDialogOpen == open
      ensures editingAddress == old(editingAddress) && addresses == old(addresses) && userProfile == old(userProfile)
    {
      isAddressDialogOpen := open;
    }

    /** `onAddressSubmit`, reached only with data that passed the address schema: edit the
        addresses with the edited id, or append a new one with the generated id (which may
        repeat a stored one); then close the dialog and clear the edit. */
    method OnAddressSubmit(data: AddressForm, now: nat)
      requires Valid() && AddressFormValid(data)
      modifies this
      ensures Valid()
      ensures old(editingAddress).Some? ==> addresses == EditById(old(addresses), old(editingAddress).value.id, data)
      ensures old(editingAddress).None? ==> addresses == old(addresses) + [NewAddress(data, now)]
      ensures !isAddressDialogOpen && editingAddress == None && userProfile == old(userProfile)
    {
      if editingAddress.Some? {
        EditProperties(addresses, editingAddress.value.id, data);
        addresses := EditById(addresses, editingAddress.value.id, data);
      } else {
        AddProperties(addresses, data, now);
        addresses := addresses + [NewAddress(data, now)];
      }
      isAddressDialogOpen := false;
      editingAddress := None;
    }

    /** `deleteAddress`: drop every address with the id. */
    method DeleteAddress(id: string)
      requires Valid()
      modifies this
      ensures Valid()
      ensures addresses == DeleteById(old(addresses), id)
      ensures isAddressDialogOpen == old(isAddressDialogOpen) && editingAddress == old(editingAddress)
      ensures userProfile == old(userProfile)
    {
      DeleteKeepsBookValid(addresses, id);
      addresses := DeleteById(addresses, id);
    }
  }
}
