/**
 * GET /api/contact: the contact rows (oldest first) grouped into one list per
 * `type`, each list keeping the rows of that type in input order and holding
 * only value and labels.
 */
module Contacts {
  import opened Values
  import opened Grouping

  /** A contact_info row as the query returns it (`kind` is the `type` column). */
  datatype ContactRow = ContactRow(kind: string, value: string, labelEn: Option<string>, labelAr: Option<string>)

  /** What the response lists for one row. */
  datatype ContactEntry = ContactEntry(value: string, labelEn: Option<string>, labelAr: Option<string>)

  datatype ContactResponse = ContactInfo(groups: map<string, seq<ContactEntry>>) | ContactFailed(status: int)

  function ContactType(c: ContactRow): string { c.kind }

  function EntryOf(c: ContactRow): ContactEntry
  {
    ContactEntry(c.value, c.labelEn, c.labelAr)
  }

  /** The rows of type `t`, as entries, in input order. */
  function EntriesOfType(rows: seq<ContactRow>, t: string): seq<ContactEntry>
  {
    Select(rows, ContactType, t, EntryOf)
  }

  /**
   * The handler: a failed query answers 500; otherwise the object has a key
   * for exactly the types that occur, and under each key the entries of the
   * rows of that type in input order.
   */
  method GetContact(q: Query<ContactRow>) returns (resp: ContactResponse)
    ensures q.QueryError? ==> resp == ContactFailed(ServerError)
    ensures q.Rows? ==> resp.ContactInfo?
    ensures q.Rows? ==> forall t :: Lookup(resp.groups, t) == EntriesOfType(q.rows, t)
    ensures q.Rows? ==> forall t :: t in resp.groups <==> exists i :: 0 <= i < |q.rows| && q.rows[i].kind == t
  {
    if q.QueryError? {
      return ContactFailed(ServerError);
    }
    var info := GroupInto(map[], q.rows, ContactType, EntryOf);
    forall t ensures t in info <==> exists i :: 0 <= i < |q.rows| && q.rows[i].kind == t {
      SelectEmpty(q.rows, ContactType, t, EntryOf);
      SelectLength(q.rows, ContactType, t, EntryOf);
    }
    resp := ContactInfo(info);
  }

  /**
   * Row `i` is listed under its own type, at the position given by the
   * number of earlier rows of that type.
   */
  lemma ContactRowListed(rows: seq<ContactRow>, i: nat)
    requires i < |rows|
    ensures var pos := Count(rows[..i], ContactType, rows[i].kind);
            pos < |EntriesOfType(rows, rows[i].kind)| && EntriesOfType(rows, rows[i].kind)[pos] == EntryOf(rows[i])
  {
    SelectRank(rows, ContactType, EntryOf, i);
  }

  /**
   * No two rows share a slot, and rows of one type keep their order: an
   * earlier row of a type sits at an earlier position of that type's list.
   */
  lemma ContactOrderKept(rows: seq<ContactRow>, i: nat, j: nat)
    requires i < j < |rows| && rows[i].kind == rows[j].kind
    ensures Count(rows[..i], ContactType, rows[i].kind) < Count(rows[..j], ContactType, rows[j].kind)
  {
    RankIncreases(rows, ContactType, i, j);
  }

  /** Every listed entry is the entry of exactly the row that owns its slot. */
  lemma ContactEntryFromRow(rows: seq<ContactRow>, t: string, n: nat)
    requires n < |EntriesOfType(rows, t)|
    ensures exists i :: 0 <= i < |rows| && rows[i].kind == t && Count(rows[..i], ContactType, t) == n
                        && EntriesOfType(rows, t)[n] == EntryOf(rows[i])
  {
    SelectOrigin(rows, ContactType, t, EntryOf, n);
  }

  /** The list of a type has one entry per row of that type. */
  lemma ContactGroupSize(rows: seq<ContactRow>, t: string)
    ensures |EntriesOfType(rows, t)| == Count(rows, ContactType, t)
  {
    SelectLength(rows, ContactType, t, EntryOf);
  }
}
