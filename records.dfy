/** Values the script receives from the service desk's JSON API, in the
    shapes the script reads them: every field it looks up with `.get` may be
    absent, so each one is an `Option`. */
module Records {

  datatype Option<+T> = None | Some(value: T)

  /** A foreign-key id as it appears in a JSON record: a number or a string. */
  datatype Key = IntKey(n: int) | StrKey(s: string)

  /** Python truthiness of an id: `None`, `0` and `""` are falsy. */
  predicate Truthy(id: Option<Key>)
  {
    match id
    case None => false
    case Some(IntKey(n)) => n != 0
    case Some(StrKey(s)) => s != ""
  }

  /** An id is truthy exactly when it is present and neither the number 0
      nor the empty string. */
  lemma TruthyIsNonEmptyId(id: Option<Key>)
    ensures Truthy(id) <==> id.Some? && id.value != IntKey(0) && id.value != StrKey("")
  {
  }

  /** One element of a page's `associated_assets` array, reduced to the six
      fields the script reads. */
  datatype Asset = Asset(
    displayId: Option<int>,
    assetTag: Option<string>,
    name: Option<string>,
    departmentId: Option<Key>,
    locationId: Option<Key>,
    userId: Option<Key>)

  /** `{"department": {"name": ...}}` or `{"location": {"name": ...}}`. */
  datatype NamedRecord = NamedRecord(name: Option<string>)

  /** A GET reply for a department or a location: the status code and, for a
      200 reply, the decoded entity object (absent when the key is missing). */
  datatype NamedReply = NamedReply(status: int, entity: Option<NamedRecord>)

  /** `{"requester": {"first_name": ..., "last_name": ...}}`; a missing name
      part reads as the empty string, the default the script passes to `.get`. */
  datatype Person = Person(firstName: string, lastName: string)

  datatype RequesterReply = RequesterReply(status: int, requester: Option<Person>)

  /** `.get("department", {}).get("name")`: absent entity or absent name give None. */
  function NameField(entity: Option<NamedRecord>): (r: Option<string>)
    ensures entity.None? ==> r.None?
    ensures entity.Some? ==> r == entity.value.name
  {
    match entity
    case None => None
    case Some(e) => e.name
  }
}
