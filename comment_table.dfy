/** The comments table, kept in memory in the order rows were inserted,
    and the two queries the plugin runs against it: "does a comment by
    this commenter exist?" (Comment.auto_approve?) and "how many of this
    owner's comments are approved?" (the approved counter cache). */
module CommentTable {
  import opened Values

  /** A timestamp, supplied by the caller in place of Time.now. */
  type Time = int

  /** One stored comment: the columns of the comments table. */
  datatype Row = Row(
    name: Option<string>,
    email: Option<string>,
    url: Option<string>,
    body: Option<string>,
    userId: Option<int>,
    ownerType: string,
    ownerId: int,
    approvedAt: Option<Time>,
    spam: bool)

  /** Who wrote a comment: a registered user by id, or a public user by
      the name and e-mail address they typed. */
  datatype Identity = RegisteredUser(userId: int) | PublicUser(name: string, email: string)

  /** The row satisfies the conditions `exists?` builds from the identity. */
  predicate HasIdentity(r: Row, who: Identity) {
    match who
    case RegisteredUser(u) => r.userId == Some(u)
    case PublicUser(n, e) => r.name == Some(n) && r.email == Some(e)
  }

  /** `Comment.exists?(conditions)`; a missing identity builds the
      condition `id IS NULL`, which no stored row meets. */
  predicate ExistsWithIdentity(rows: seq<Row>, who: Option<Identity>) {
    who.Some? && exists i :: 0 <= i < |rows| && HasIdentity(rows[i], who.value)
  }

  /** The polymorphic owner reference of a row. */
  predicate BelongsTo(r: Row, ownerType: string, ownerId: int) {
    r.ownerType == ownerType && r.ownerId == ownerId
  }

  predicate CountsAsApproved(r: Row, ownerType: string, ownerId: int) {
    BelongsTo(r, ownerType, ownerId) && r.approvedAt.Some?
  }

  function Weight(r: Row, ownerType: string, ownerId: int): nat {
    if CountsAsApproved(r, ownerType, ownerId) then 1 else 0
  }

  /** `owner.comments.approved.count`. */
  function ApprovedCount(rows: seq<Row>, ownerType: string, ownerId: int): (n: nat)
    ensures n <= |rows|
  {
    if rows == [] then 0
    else Weight(rows[0], ownerType, ownerId) + ApprovedCount(rows[1..], ownerType, ownerId)
  }

  /** The positions of the owner's approved comments. */
  function ApprovedPositions(rows: seq<Row>, ownerType: string, ownerId: int): set<nat> {
    set i: nat | i < |rows| && CountsAsApproved(rows[i], ownerType, ownerId)
  }

  /** Inserting a row raises the count by one exactly when the new row is
      an approved comment of this owner. */
  lemma {:induction false} ApprovedCountAppend(rows: seq<Row>, r: Row, ownerType: string, ownerId: int)
    ensures ApprovedCount(rows + [r], ownerType, ownerId)
         == ApprovedCount(rows, ownerType, ownerId) + Weight(r, ownerType, ownerId)
  {
    if rows != [] {
      assert (rows + [r])[1..] == rows[1..] + [r];
      ApprovedCountAppend(rows[1..], r, ownerType, ownerId);
    }
  }

  /** Rewriting one stored row changes the count by the difference of the
      old and the new row's contributions. */
  lemma {:induction false} ApprovedCountUpdate(rows: seq<Row>, i: nat, r: Row, ownerType: string, ownerId: int)
    requires i < |rows|
    ensures ApprovedCount(rows[i := r], ownerType, ownerId) + Weight(rows[i], ownerType, ownerId)
         == ApprovedCount(rows, ownerType, ownerId) + Weight(r, ownerType, ownerId)
  {
    if i > 0 {
      assert rows[i := r][1..] == rows[1..][i - 1 := r];
      ApprovedCountUpdate(rows[1..], i - 1, r, ownerType, ownerId);
    }
  }

  /** The counter cache holds the number of this owner's approved
      comments: after N comments of which M were approved, it is M. */
  lemma {:induction false} ApprovedCountIsNumberApproved(rows: seq<Row>, ownerType: string, ownerId: int)
    ensures ApprovedCount(rows, ownerType, ownerId) == |ApprovedPositions(rows, ownerType, ownerId)|
    decreases |rows|
  {
    if rows != [] {
      var n := |rows| - 1;
      var front, last := rows[..n], rows[n];
      assert rows == front + [last];
      ApprovedCountAppend(front, last, ownerType, ownerId);
      ApprovedCountIsNumberApproved(front, ownerType, ownerId);
      var before := ApprovedPositions(front, ownerType, ownerId);
      var after := ApprovedPositions(rows, ownerType, ownerId);
      assert n !in before;
      if CountsAsApproved(last, ownerType, ownerId) {
        assert after == before + {n};
      } else {
        assert after == before;
      }
    }
  }

  /** A stored row stays findable: once a commenter has a comment in the
      table, every later lookup for that commenter succeeds. */
  lemma ExistsAfterInsert(rows: seq<Row>, r: Row, who: Identity)
    requires HasIdentity(r, who)
    ensures ExistsWithIdentity(rows + [r], Some(who))
  {
    assert (rows + [r])[|rows|] == r;
  }

  /** Inserting rows never makes an existing commenter unknown. */
  lemma ExistsMonotone(rows: seq<Row>, more: seq<Row>, who: Option<Identity>)
    requires ExistsWithIdentity(rows, who)
    ensures ExistsWithIdentity(rows + more, who)
  {
    var i :| 0 <= i < |rows| && HasIdentity(rows[i], who.value);
    assert (rows + more)[i] == rows[i];
  }

  /** The comments table of the Comment model. */
  class CommentStore {
    var rows: seq<Row>

    constructor ()
      ensures rows == []
    {
      rows := [];
    }
  }
}
