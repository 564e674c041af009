/**
 * The console library of Task_3: books and members kept in two maps keyed by
 * id, with add, remove, borrow, return and two listing queries.
 */
module Library {
  import opened Common

  datatype Book = Book(id: int, title: string, author: string, status: string)
  datatype Member = Member(id: int, name: string, booksBorrowed: seq<Book>)

  const MsgBookNotFound: string := "book not found"
  const MsgBookUnavailable: string := "book Unavailable"
  const MsgMemberNotFound: string := "member not found"
  const MsgBookNotBorrowed: string := "book is Not Borrowed"
  const MsgNotBorrowedByMember: string := "this member hasn't borrowed "

  /** Some entry of `list` carries book id `id`. */
  predicate HasBook(list: seq<Book>, id: int)
  {
    exists i :: 0 <= i < |list| && list[i].id == id
  }

  /** The checks of `BorrowBook`, in source order; `None` is success. */
  function BorrowCheck(books: map<int, Book>, members: map<int, Member>, bookId: int, memberId: int): Option<string>
  {
    if bookId !in books then Some(MsgBookNotFound)
    else if books[bookId].status == "borrowed" then Some(MsgBookUnavailable)
    else if memberId !in members then Some(MsgMemberNotFound)
    else None
  }

  /** The checks of `ReturnBook`, in source order, ending with the scan of the member's list. */
  function ReturnCheck(books: map<int, Book>, members: map<int, Member>, bookId: int, memberId: int): Option<string>
  {
    if bookId !in books then Some(MsgBookNotFound)
    else if books[bookId].status == "available" then Some(MsgBookNotBorrowed)
    else if memberId !in members then Some(MsgMemberNotFound)
    else if HasBook(members[memberId].booksBorrowed, books[bookId].id) then None
    else Some(MsgNotBorrowedByMember)
  }

  /** A non-empty set has a member to pick. */
  lemma HasElement(s: set<int>)
    requires s != {}
    ensures exists k :: k in s
  {
    if forall k :: k !in s {
      assert false;
    }
  }

  /** Ids of the books `ListAvailableBooks` reports: status exactly "Available". */
  function AvailableKeys(books: map<int, Book>): set<int>
  {
    set k | k in books && books[k].status == "Available"
  }

  /** `list` without its first entry whose id is `id`; unchanged when there is none. */
  function RemoveFirst(list: seq<Book>, id: int): (r: seq<Book>)
    ensures HasBook(list, id) ==> |r| == |list| - 1
    ensures !HasBook(list, id) ==> r == list
  {
    if list == [] then []
    else if list[0].id == id then list[1..]
    else
      assert !HasBook(list, id) ==> !HasBook(list[1..], id) by {
        if HasBook(list[1..], id) {
          var i :| 0 <= i < |list[1..]| && list[1..][i].id == id;
          assert list[i + 1].id == id;
        }
      }
      assert HasBook(list[1..], id) ==> HasBook(list, id) by {
        if HasBook(list[1..], id) {
          var i :| 0 <= i < |list[1..]| && list[1..][i].id == id;
          assert list[i + 1].id == id;
        }
      }
      [list[0]] + RemoveFirst(list[1..], id)
  }

  /** `RemoveFirst` takes out exactly the entry at the first matching index and keeps the order of the rest. */
  lemma {:induction false} RemoveFirstAt(list: seq<Book>, id: int, idx: nat)
    requires idx < |list| && list[idx].id == id
    requires forall j :: 0 <= j < idx ==> list[j].id != id
    ensures RemoveFirst(list, id) == list[..idx] + list[idx + 1..]
  {
    if idx > 0 {
      RemoveFirstAt(list[1..], id, idx - 1);
      assert list[1..][..idx - 1] == list[1..idx];
      assert list[1..][idx..] == list[idx + 1..];
      assert [list[0]] + list[1..idx] == list[..idx];
    }
  }

  /** Removing an id that only the appended entry carries gives back the original list. */
  lemma {:induction false} RemoveFirstAppended(list: seq<Book>, b: Book)
    requires !HasBook(list, b.id)
    ensures RemoveFirst(list + [b], b.id) == list
  {
    if list == [] {
    } else {
      assert list[0].id != b.id;
      assert (list + [b])[1..] == list[1..] + [b];
      RemoveFirstAppended(list[1..], b);
    }
  }

  /**
   * What `BorrowBook`'s doc-comment describes: the book's status becomes
   * "borrowed" and that book is appended to the member's list, both stored
   * back in the maps. When a check fails nothing changes.
   */
  function Borrowed(books: map<int, Book>, members: map<int, Member>, bookId: int, memberId: int): (map<int, Book>, map<int, Member>)
  {
    if BorrowCheck(books, members, bookId, memberId).Some? then (books, members)
    else
      var b := books[bookId].(status := "borrowed");
      var m := members[memberId];
      (books[bookId := b], members[memberId := m.(booksBorrowed := m.booksBorrowed + [b])])
  }

  /**
   * What `ReturnBook`'s doc-comment describes: the book's status becomes
   * "available" and its first entry leaves the member's list, both stored back.
   */
  function Returned(books: map<int, Book>, members: map<int, Member>, bookId: int, memberId: int): (map<int, Book>, map<int, Member>)
  {
    if ReturnCheck(books, members, bookId, memberId).Some? then (books, members)
    else
      var b := books[bookId];
      var m := members[memberId];
      (books[bookId := b.(status := "available")],
       members[memberId := m.(booksBorrowed := RemoveFirst(m.booksBorrowed, b.id))])
  }

  /**
   * With `BorrowBook` as written the state does not change, so a successful
   * borrow followed by a return of the same book by the same member fails.
   */
  lemma AsWrittenBorrowThenReturnFails()
    ensures
      var books := map[1 := Book(1, "Go", "Pike", "Available")];
      var members := map[7 := Member(7, "Abebe", [])];
      BorrowCheck(books, members, 1, 7) == None
      && ReturnCheck(books, members, 1, 7) == Some(MsgNotBorrowedByMember)
  {
    var books := map[1 := Book(1, "Go", "Pike", "Available")];
    var members := map[7 := Member(7, "Abebe", [])];
    assert !HasBook(members[7].booksBorrowed, 1);
  }

  /**
   * With the write-back, a successful borrow makes the return succeed, and the
   * return restores every member's list; the book ends up "available".
   */
  lemma {:induction false} BorrowThenReturn(books: map<int, Book>, members: map<int, Member>, bookId: int, memberId: int)
    requires BorrowCheck(books, members, bookId, memberId) == None
    requires books[bookId].id == bookId
    requires !HasBook(members[memberId].booksBorrowed, bookId)
    ensures var (books1, members1) := Borrowed(books, members, bookId, memberId);
      && ReturnCheck(books1, members1, bookId, memberId) == None
      && Returned(books1, members1, bookId, memberId).1 == members
      && Returned(books1, members1, bookId, memberId).0 == books[bookId := books[bookId].(status := "available")]
  {
    var (books1, members1) := Borrowed(books, members, bookId, memberId);
    var b := books[bookId].(status := "borrowed");
    var list := members[memberId].booksBorrowed;
    assert members1[memberId].booksBorrowed == list + [b];
    assert (list + [b])[|list|].id == bookId;
    RemoveFirstAppended(list, b);
    assert members[memberId := members[memberId].(booksBorrowed := list)] == members;
  }

  /** A book whose status was written by a return ("available") is not listed by `ListAvailableBooks`. */
  lemma ReturnedBookNotListed(books: map<int, Book>, members: map<int, Member>, bookId: int, memberId: int)
    requires ReturnCheck(books, members, bookId, memberId) == None
    ensures bookId !in AvailableKeys(Returned(books, members, bookId, memberId).0)
  {
  }

  /** Adding a book overwrites its id's entry in the listing and touches no other id. */
  lemma AvailableAfterAdd(books: map<int, Book>, b: Book)
    ensures AvailableKeys(books[b.id := b]) ==
      (AvailableKeys(books) - {b.id}) + (if b.status == "Available" then {b.id} else {})
  {
  }

  /** Removing a book removes exactly its id from the listing. */
  lemma AvailableAfterRemove(books: map<int, Book>, id: int)
    ensures AvailableKeys(books - {id}) == AvailableKeys(books) - {id}
  {
  }

  class Library {
    var books: map<int, Book>
    var members: map<int, Member>

    /** `NewLibrary`: both maps empty. */
    constructor ()
      ensures books == map[] && members == map[]
    {
      books := map[];
      members := map[];
    }

    /** `AddBook`: stores the book under its own id, replacing any earlier entry. */
    method AddBook(book: Book)
      modifies this
      ensures books == old(books)[book.id := book]
      ensures members == old(members)
    {
      books := books[book.id := book];
    }

    /** `RemoveBook`: deletes the entry; an absent id is a no-op. */
    method RemoveBook(bookId: int)
      modifies this
      ensures books == old(books) - {bookId}
      ensures members == old(members)
    {
      books := books - {bookId};
    }

    /**
     * `BorrowBook` as written: the checks in order, and on success the status
     * change and the append go to copies of the map values, so the library is
     * unchanged (the method modifies nothing).
     */
    method BorrowBook(bookId: int, memberId: int) returns (err: Option<string>)
      ensures err == BorrowCheck(books, members, bookId, memberId)
      ensures bookId !in books ==> err == Some(MsgBookNotFound)
      ensures bookId in books && books[bookId].status == "borrowed" ==> err == Some(MsgBookUnavailable)
      ensures err == None <==> bookId in books && books[bookId].status != "borrowed" && memberId in members
    {
      if bookId !in books {
        return Some(MsgBookNotFound);
      }
      var book := books[bookId];
      if book.status == "borrowed" {
        return Some(MsgBookUnavailable);
      }
      if memberId !in members {
        return Some(MsgMemberNotFound);
      }
      book := book.(status := "borrowed");
      var member := members[memberId];
      member := member.(booksBorrowed := member.booksBorrowed + [book]);
      return None;
    }

    /**
     * `ReturnBook` as written: the checks in order, then a scan of the
     * member's list for the book's id; the removal and the status change go
     * to copies, so the library is unchanged.
     */
    method ReturnBook(bookId: int, memberId: int) returns (err: Option<string>)
      ensures err == ReturnCheck(books, members, bookId, memberId)
      ensures err == None <==>
        && bookId in books && books[bookId].status != "available" && memberId in members
        && HasBook(ListBorrowedBooks(memberId), books[bookId].id)
    {
      if bookId !in books {
        return Some(MsgBookNotFound);
      }
      var book := books[bookId];
      if book.status == "available" {
        return Some(MsgBookNotBorrowed);
      }
      if memberId !in members {
        return Some(MsgMemberNotFound);
      }
      book := book.(status := "available");
      var list := members[memberId].booksBorrowed;
      var idx := 0;
      while idx < |list|
        invariant 0 <= idx <= |list|
        invariant forall j :: 0 <= j < idx ==> list[j].id != book.id
      {
        if list[idx].id == book.id {
          var member := members[memberId];
          var arr := list[..idx] + list[idx + 1..];
          member := member.(booksBorrowed := arr);
          return None;
        }
        idx := idx + 1;
      }
      return Some(MsgNotBorrowedByMember);
    }

    /**
     * `ListAvailableBooks`: every book whose status is exactly "Available",
     * each once, in an unspecified order (Go map iteration); `keys` names the
     * entry each result came from.
     */
    method ListAvailableBooks() returns (available: seq<Book>, ghost keys: seq<int>)
      ensures |keys| == |available|
      ensures forall i :: 0 <= i < |keys| ==> keys[i] in books && available[i] == books[keys[i]]
      ensures forall i, j :: 0 <= i < j < |keys| ==> keys[i] != keys[j]
      ensures forall k :: k in AvailableKeys(books) <==> k in keys
      ensures forall b :: b in available ==> b.status == "Available"
    {
      available := [];
      keys := [];
      var remaining := books.Keys;
      while remaining != {}
        invariant remaining <= books.Keys
        invariant |keys| == |available|
        invariant forall i :: 0 <= i < |keys| ==>
          keys[i] in books && keys[i] !in remaining && available[i] == books[keys[i]]
          && books[keys[i]].status == "Available"
        invariant forall i, j :: 0 <= i < j < |keys| ==> keys[i] != keys[j]
        invariant forall x :: x in books && x !in remaining ==> (x in keys <==> books[x].status == "Available")
        decreases remaining
      {
        HasElement(remaining);
        var k :| k in remaining;
        if books[k].status == "Available" {
          available := available + [books[k]];
          keys := keys + [k];
        }
        remaining := remaining - {k};
      }
    }

    /** `ListBorrowedBooks`: the member's list, or the empty list (Go's zero value) for an unknown member. */
    function ListBorrowedBooks(memberId: int): (r: seq<Book>)
      reads this
      ensures memberId in members ==> r == members[memberId].booksBorrowed
      ensures memberId !in members ==> r == []
    {
      if memberId in members then members[memberId].booksBorrowed else []
    }

    /**
     * `BorrowBook` with the write-back its doc-comment promises; the state it
     * leaves is `Borrowed` of the old state.
     */
    method BorrowBookStored(bookId: int, memberId: int) returns (err: Option<string>)
      modifies this
      ensures err == BorrowCheck(old(books), old(members), bookId, memberId)
      ensures (books, members) == Borrowed(old(books), old(members), bookId, memberId)
    {
      err := BorrowBook(bookId, memberId);
      if err == None {
        var b := books[bookId].(status := "borrowed");
        var m := members[memberId];
        books := books[bookId := b];
        members := members[memberId := m.(booksBorrowed := m.booksBorrowed + [b])];
      }
    }

    /**
     * `ReturnBook` with the write-back its doc-comment promises; the state it
     * leaves is `Returned` of the old state.
     */
    method ReturnBookStored(bookId: int, memberId: int) returns (err: Option<string>)
      modifies this
      ensures err == ReturnCheck(old(books), old(members), bookId, memberId)
      ensures (books, members) == Returned(old(books), old(members), bookId, memberId)
    {
      err := ReturnBook(bookId, memberId);
      if err == None {
        var b := books[bookId];
        var m := members[memberId];
        books := books[bookId := b.(status := "available")];
        members := members[memberId := m.(booksBorrowed := RemoveFirst(m.booksBorrowed, b.id))];
      }
    }
  }
}
