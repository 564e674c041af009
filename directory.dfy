/**
 * The user collection the flows read and write, seen as a sequence of documents
 * in insertion order.  `FindOne` returns the first matching document, `InsertOne`
 * appends, and `UpdateOne` with `$set` of a whole record overwrites the first
 * document with the same `_id`.  Failures of the store are not decided here: the
 * flows receive them as `Faults`.
 */
module Directory {
  import opened Common
  import opened Users

  /** The error each foreign call of one request returns, if any. */
  datatype Faults = Faults(
    find: Option<string>,    // FindOne (other than "no documents")
    hash: Option<string>,    // bcrypt.GenerateFromPassword
    insert: Option<string>,  // InsertOne
    update: Option<string>,  // UpdateOne
    sign: Option<string>     // token.SignedString
  )

  const NoFaults: Faults := Faults(None, None, None, None, None)

  /** What a lookup filters on: `{email: ...}` or `{_id: ...}`. */
  datatype Key = Email(email: string) | Id(id: ObjectId)

  predicate HasKey(u: User, k: Key)
  {
    match k
    case Email(e) => u.email == e
    case Id(id) => u.id == id
  }

  /** Index of the first document matching the filter. */
  function FindKey(docs: seq<User>, k: Key): (r: Option<nat>)
    ensures r.Some? ==> r.value < |docs| && HasKey(docs[r.value], k)
    ensures r.Some? ==> forall j :: 0 <= j < r.value ==> !HasKey(docs[j], k)
    ensures r.None? ==> forall j :: 0 <= j < |docs| ==> !HasKey(docs[j], k)
  {
    if docs == [] then None
    else if HasKey(docs[0], k) then Some(0)
    else match FindKey(docs[1..], k)
      case None => None
      case Some(k') => Some(k' + 1)
  }

  /** Index of the first document with this email. */
  function FindEmail(docs: seq<User>, email: string): Option<nat>
  {
    FindKey(docs, Email(email))
  }

  /** Index of the first document with this `_id`. */
  function FindId(docs: seq<User>, id: ObjectId): Option<nat>
  {
    FindKey(docs, Id(id))
  }

  /** The first document with this email, as `GetExistingUserByEmail` / `GetByEmail` return it. */
  function ByEmail(docs: seq<User>, email: string): (r: Option<User>)
    ensures r.Some? ==> r.value in docs && r.value.email == email
    ensures r.None? <==> forall u :: u in docs ==> u.email != email
  {
    match FindEmail(docs, email)
    case None => None
    case Some(k) => Some(docs[k])
  }

  /** The first document with this `_id`. */
  function ById(docs: seq<User>, id: ObjectId): (r: Option<User>)
    ensures r.Some? ==> r.value in docs && r.value.id == id
    ensures r.None? <==> forall u :: u in docs ==> u.id != id
  {
    match FindId(docs, id)
    case None => None
    case Some(k) => Some(docs[k])
  }

  /** `UpdateOne({_id: u.id}, {$set: u})`: the first document with that `_id` becomes `u`; nothing else changes. */
  function SetById(docs: seq<User>, u: User): (r: seq<User>)
    ensures |r| == |docs|
    ensures FindId(docs, u.id).None? ==> r == docs
    ensures FindId(docs, u.id).Some? ==> r == docs[FindId(docs, u.id).value := u]
  {
    match FindId(docs, u.id)
    case None => docs
    case Some(k) => docs[k := u]
  }

  /** No two documents share an email: the uniqueness the registration flows enforce. */
  ghost predicate EmailsUnique(docs: seq<User>)
  {
    forall i, j :: 0 <= i < j < |docs| ==> docs[i].email != docs[j].email
  }

  /** Appending a document whose email is new keeps emails unique. */
  lemma AppendNewEmail(docs: seq<User>, u: User)
    requires EmailsUnique(docs)
    requires ByEmail(docs, u.email).None?
    ensures EmailsUnique(docs + [u])
  {
    var s := docs + [u];
    forall i, j | 0 <= i < j < |s| ensures s[i].email != s[j].email {
      if j == |docs| { assert s[i] in docs; }
    }
  }

  /** Overwriting a document with a record of the same email keeps emails unique. */
  lemma SetSameEmail(docs: seq<User>, u: User)
    requires EmailsUnique(docs)
    requires ById(docs, u.id).Some? && ById(docs, u.id).value.email == u.email
    ensures EmailsUnique(SetById(docs, u))
  {
  }

  /** The user collection. */
  class UserDirectory {
    var docs: seq<User>

    constructor (initial: seq<User>)
      ensures docs == initial
    {
      docs := initial;
    }

    /** `InsertOne(u)`. */
    method Insert(u: User)
      modifies this
      ensures docs == old(docs) + [u]
    {
      docs := docs + [u];
    }

    /** `UpdateOne({_id: u.id}, {$set: u})`. */
    method Update(u: User)
      modifies this
      ensures docs == SetById(old(docs), u)
    {
      var k := FindId(docs, u.id);
      if k.Some? {
        docs := docs[k.value := u];
      }
    }
  }
}
