/** DonationController: the JSON listing and intake of donations over an
    append-only donation table. */
module DonationController {
  import opened Request
  import opened Validation
  import opened DonationModel

  /** The donations table: rows in insertion order and the next identifier
      the database will assign. No exposed operation updates or deletes a row. */
  class DonationTable {
    var rows: seq<Donation>
    var nextId: nat

    ghost predicate Valid()
      reads this
    {
      && (forall i :: 0 <= i < |rows| ==> rows[i].id < nextId)
      && (forall i, j :: 0 <= i < j < |rows| ==> rows[i].id < rows[j].id)
    }

    constructor ()
      ensures Valid() && rows == [] && nextId == 1
    {
      rows := [];
      nextId := 1;
    }

    /** `Donation::create($input)`: mass assignment, then one inserted row. */
    method Create(input: Input, now: int) returns (d: Donation)
      requires Valid()
      modifies this
      ensures Valid()
      ensures d == Donation(old(nextId), now, Fillable(input))
      ensures rows == old(rows) + [d] && nextId == old(nextId) + 1
    {
      d := Donation(nextId, now, Fillable(input));
      rows := rows + [d];
      nextId := nextId + 1;
    }
  }

  /** Rows ordered by creation time, newest first. */
  ghost predicate NewestFirstOrder(s: seq<Donation>) {
    forall i, j :: 0 <= i < j < |s| ==> s[i].createdAt >= s[j].createdAt
  }

  /** Places `d` before the first row that is not newer than it. */
  function InsertByTime(d: Donation, sorted: seq<Donation>): seq<Donation> {
    if sorted == [] || sorted[0].createdAt <= d.createdAt then [d] + sorted
    else [sorted[0]] + InsertByTime(d, sorted[1..])
  }

  /** `Donation::latest()->get()`: the rows ordered by `created_at`, newest
      first; of two rows created at the same time the later insert comes first. */
  function NewestFirst(rows: seq<Donation>): seq<Donation> {
    if rows == [] then [] else InsertByTime(rows[|rows| - 1], NewestFirst(rows[..|rows| - 1]))
  }

  lemma {:induction false} InsertByTimeKeepsOrder(d: Donation, sorted: seq<Donation>)
    requires NewestFirstOrder(sorted)
    ensures multiset(InsertByTime(d, sorted)) == multiset(sorted) + multiset{d}
    ensures NewestFirstOrder(InsertByTime(d, sorted))
  {
    if sorted == [] || sorted[0].createdAt <= d.createdAt {
      PrependKeepsOrder(d, sorted);
    } else {
      var head, tail := sorted[0], sorted[1..];
      var rest := InsertByTime(d, tail);
      InsertByTimeKeepsOrder(d, tail);
      assert sorted == [head] + tail;
      forall x | x in rest ensures head.createdAt >= x.createdAt {
        assert x in multiset(rest);
        assert x == d || x in tail;
      }
      PrependKeepsOrder(head, rest);
    }
  }

  /** A row no older than every row of a newest-first list may head it. */
  lemma PrependKeepsOrder(head: Donation, rest: seq<Donation>)
    requires NewestFirstOrder(rest)
    requires forall x :: x in rest ==> head.createdAt >= x.createdAt
    ensures NewestFirstOrder([head] + rest)
  {
    var all := [head] + rest;
    forall i, j | 0 <= i < j < |all| ensures all[i].createdAt >= all[j].createdAt {
      if i == 0 {
        assert all[j] == rest[j - 1];
      } else {
        assert all[i] == rest[i - 1] && all[j] == rest[j - 1];
      }
    }
  }

  /** The listing holds every stored row once, ordered newest first. */
  lemma {:induction false} NewestFirstIsOrderedPermutation(rows: seq<Donation>)
    ensures multiset(NewestFirst(rows)) == multiset(rows)
    ensures |NewestFirst(rows)| == |rows|
    ensures NewestFirstOrder(NewestFirst(rows))
  {
    if rows != [] {
      var init := rows[..|rows| - 1];
      NewestFirstIsOrderedPermutation(init);
      InsertByTimeKeepsOrder(rows[|rows| - 1], NewestFirst(init));
      assert rows == init + [rows[|rows| - 1]];
    }
    assert |multiset(NewestFirst(rows))| == |multiset(rows)|;
  }

  /** A row created no earlier than every other row heads the listing. */
  lemma {:induction false} LatestRowListedFirst(rows: seq<Donation>, d: Donation)
    requires forall i :: 0 <= i < |rows| ==> rows[i].createdAt <= d.createdAt
    ensures NewestFirst(rows + [d])[0] == d
  {
    var all := rows + [d];
    assert all[..|all| - 1] == rows;
    NewestFirstIsOrderedPermutation(rows);
    var listed := NewestFirst(rows);
    if listed != [] {
      assert listed[0] in multiset(rows);
    }
  }

  datatype IndexResponse = IndexResponse(success: bool, data: seq<Donation>, count: nat)

  /** GET /api/donations: every stored donation, newest first, with its count. */
  function Index(table: DonationTable): (r: IndexResponse)
    reads table
    ensures r.success && r.count == |r.data| == |table.rows|
    ensures multiset(r.data) == multiset(table.rows)
    ensures NewestFirstOrder(r.data)
  {
    NewestFirstIsOrderedPermutation(table.rows);
    var data := NewestFirst(table.rows);
    IndexResponse(true, data, |data|)
  }

  datatype StoreResponse =
    | Created(message: string, data: Donation)
    | Unprocessable(errors: ErrorBag)
  {
    function Status(): int { if Created? then 201 else 422 }
    predicate Success() { Created? }
  }

  const CreatedMessage := "Donation created successfully"

  /** POST /api/donations: validate, then insert exactly one row; on a failed
      validation answer 422 with the field-keyed errors and insert nothing. */
  method Store(table: DonationTable, oracles: Oracles, input: Input, now: int) returns (r: StoreResponse)
    requires table.Valid()
    modifies table
    ensures table.Valid()
    ensures var errors := Validate(oracles, DonationRules, input);
      if errors == map[] then
        && r == Created(CreatedMessage, Donation(old(table.nextId), now, Fillable(input)))
        && table.rows == old(table.rows) + [r.data]
        && table.nextId == old(table.nextId) + 1
      else
        && r == Unprocessable(Messages(errors))
        && table.rows == old(table.rows) && table.nextId == old(table.nextId)
    ensures r.Success() <==> AcceptableDonation(oracles, input)
  {
    var errors := Validate(oracles, DonationRules, input);
    DonationRulesMeaning(oracles, input);
    if errors != map[] {
      return Unprocessable(Messages(errors));
    }
    var d := table.Create(input, now);
    r := Created(CreatedMessage, d);
  }

  /** The body of an empty controller action: HTTP 200 with no content. */
  datatype EmptyResponse = EmptyResponse(status: int, body: string)

  /** show: an empty action that no route reaches; routed, its null return would
      become an empty 200 response. No row is read or changed. */
  method Show(table: DonationTable, id: string) returns (r: EmptyResponse)
    ensures r == EmptyResponse(200, "")
    ensures unchanged(table)
  {
    r := EmptyResponse(200, "");
  }

  /** update: an empty action that no route reaches; routed, its null return would
      become an empty 200 response. No row is changed. */
  method Update(table: DonationTable, input: Input, id: string) returns (r: EmptyResponse)
    ensures r == EmptyResponse(200, "")
    ensures unchanged(table)
  {
    r := EmptyResponse(200, "");
  }

  /** destroy: an empty action that no route reaches; routed, its null return would
      become an empty 200 response. No row is removed. */
  method Destroy(table: DonationTable, id: string) returns (r: EmptyResponse)
    ensures r == EmptyResponse(200, "")
    ensures unchanged(table)
  {
    r := EmptyResponse(200, "");
  }
}
