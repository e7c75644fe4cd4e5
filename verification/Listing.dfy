/** The paged listing of machine clients over the table's index (dynamo/m2m.go, ListClients). */
module Listing {
  import opened Wrappers
  import opened Records
  import opened Ordering
  import opened Table

  const MACHINE_CLIENT_PREFIX := "CLIENT#"

  /** strings.TrimPrefix */
  function TrimPrefix(s: string, prefix: string): string {
    if prefix <= s then s[|prefix|..] else s
  }

  lemma TrimUndoesKey(id: string)
    ensures TrimPrefix(ClientKey(id), MACHINE_CLIENT_PREFIX) == id
  {
    assert ClientKey(id)[7..] == id;
  }

  // ---------------------------------------------------------------------------------------
  // The index
  // ---------------------------------------------------------------------------------------

  /** Items of each kind stand under keys of their own prefix, as every call leaves them. */
  ghost predicate Typed(items: Items) {
    forall key :: key in items ==>
      match items[key]
      case ClientItem(_) => "CLIENT#" <= key
      case RateItem(_) => "RATE#" <= key
      case TokenItem(_) => "REFRESH_TOKEN#" <= key
  }

  lemma {:induction false} CallsKeepTyped(calls: seq<Call>)
    ensures Typed(ApplyAll(map[], calls))
  {
    if calls == [] {
    } else {
      CallsKeepTyped(calls[..|calls| - 1]);
    }
  }

  /** One index row: the key of a CLIENT# item, which is also its sort key, and the record. */
  datatype Row = Row(key: string, record: Record)

  function Keys(rows: seq<Row>): (keys: seq<string>)
    ensures |keys| == |rows| && forall i :: 0 <= i < |rows| ==> keys[i] == rows[i].key
  {
    seq(|rows|, i requires 0 <= i < |rows| => rows[i].key)
  }

  /** The index partition holds every CLIENT# item, in the order of the keys. */
  ghost predicate Indexes(rows: seq<Row>, items: Items) {
    && Ascending(Keys(rows))
    && (forall i :: 0 <= i < |rows| ==> rows[i].key in items && items[rows[i].key] == ClientItem(rows[i].record))
    && (forall key :: key in items && items[key].ClientItem? ==> key in Keys(rows))
  }

  /** How many rows come up to and including a key; none do when there is no key. */
  function UpTo(rows: seq<Row>, key: Option<string>): (n: nat)
    requires Ascending(Keys(rows))
    ensures n <= |rows|
    ensures key.None? ==> n == 0
    ensures key.Some? ==> forall i :: 0 <= i < |rows| ==> (i < n <==> !Below(key.value, rows[i].key))
  {
    if key.None? then 0 else Count(rows, key.value, |rows|)
  }

  function Count(rows: seq<Row>, key: string, k: nat): (n: nat)
    requires k <= |rows| && Ascending(Keys(rows))
    ensures n <= k && forall i :: 0 <= i < k ==> (i < n <==> !Below(key, rows[i].key))
  {
    if k == 0 then 0
    else if Below(key, rows[k - 1].key) then Count(rows, key, k - 1)
    else
      assert forall i :: 0 <= i < k ==> !Below(key, rows[i].key) by {
        forall i | 0 <= i < k - 1 ensures !Below(key, rows[i].key) {
          assert Below(Keys(rows)[i], Keys(rows)[k - 1]);
          if Below(key, rows[i].key) {
            BelowTransitive(key, rows[i].key, rows[k - 1].key);
          }
        }
      }
      k
  }

  lemma UpToMonotone(rows: seq<Row>, a: Option<string>, b: Option<string>)
    requires Ascending(Keys(rows)) && b.Some? && (a.Some? ==> !Below(b.value, a.value))
    ensures UpTo(rows, a) <= UpTo(rows, b)
    ensures a.Some? ==> !Below(b.value, a.value)
  {
    if a.Some? {
      BelowIrreflexive(a.value);
      var n := UpTo(rows, a);
      if n > 0 && Below(b.value, rows[n - 1].key) {
        BelowTotal(a.value, rows[n - 1].key);
        if a.value != rows[n - 1].key {
          BelowTransitive(b.value, rows[n - 1].key, a.value);
        }
      }
    }
  }

  /** One row for every row of `rows`, record changed or not, and maybe more. */
  ghost predicate Grown(rows: seq<Row>, later: seq<Row>) {
    Ascending(Keys(later)) && forall key :: key in Keys(rows) ==> key in Keys(later)
  }

  /** What happens around a query: the index gains rows first, then the page stops at some key, or the query fails. */
  datatype Cut = StopAt(rows: seq<Row>, key: string) | Fail

  /** The index only ever gains rows. */
  ghost predicate OnlyGains(rows: seq<Row>, cuts: seq<Cut>)
    decreases |cuts|
  {
    cuts == [] ||
    match cuts[0]
    case Fail => OnlyGains(rows, cuts[1..])
    case StopAt(later, _) => Grown(rows, later) && OnlyGains(later, cuts[1..])
  }

  /** Nothing is written to it while it is listed. */
  ghost predicate Stands(rows: seq<Row>, cuts: seq<Cut>) {
    forall i :: 0 <= i < |cuts| && cuts[i].StopAt? ==> cuts[i].rows == rows
  }

  datatype Page = Page(rows: seq<Row>, lastEvaluatedKey: Option<string>)

  /**
    The index as its clients see it.  Each query continues after `startKey`; `cuts` decides what
    the coming queries meet and where their pages end, and when they run out a page goes to the
    end.
   */
  class Index {
    var rows: seq<Row>
    var cuts: seq<Cut>

    ghost predicate Valid()
      reads this
    {
      Ascending(Keys(rows)) && OnlyGains(rows, cuts)
    }

    constructor (rows: seq<Row>, cuts: seq<Cut>)
      requires Ascending(Keys(rows)) && OnlyGains(rows, cuts)
      ensures Valid() && this.rows == rows && this.cuts == cuts
    {
      this.rows := rows;
      this.cuts := cuts;
    }

    method Query(startKey: Option<string>) returns (page: Option<Page>)
      requires Valid()
      modifies this
      ensures Valid() && Grown(old(rows), rows)
      ensures Stands(old(rows), old(cuts)) ==> rows == old(rows) && Stands(rows, cuts)
      ensures cuts == if old(cuts) == [] then [] else old(cuts)[1..]
      ensures page.None? <==> old(cuts) != [] && old(cuts)[0].Fail?
      ensures old(cuts) == [] ==> page == Some(Page(rows[UpTo(rows, startKey)..], None))
      ensures page.Some? && old(cuts) != [] ==>
                && page.value.lastEvaluatedKey.Some?
                && (startKey.Some? ==> !Below(page.value.lastEvaluatedKey.value, startKey.value))
                && UpTo(rows, startKey) <= UpTo(rows, page.value.lastEvaluatedKey)
                && page.value.rows == rows[UpTo(rows, startKey)..UpTo(rows, page.value.lastEvaluatedKey)]
    {
      if cuts == [] {
        return Some(Page(rows[UpTo(rows, startKey)..], None));
      }
      var cut := cuts[0];
      cuts := cuts[1..];
      if cut.Fail? {
        return None;
      }
      rows := cut.rows;
      var last := if startKey.Some? && Below(cut.key, startKey.value) then startKey else Some(cut.key);
      BelowIrreflexive(last.value);
      UpToMonotone(rows, startKey, last);
      return Some(Page(rows[UpTo(rows, startKey)..UpTo(rows, last)], last));
    }
  }

  // ---------------------------------------------------------------------------------------
  // ListClients
  // ---------------------------------------------------------------------------------------

  datatype Client = Client(id: string, record: Record)

  function ClientOf(row: Row): Client {
    Client(TrimPrefix(row.key, MACHINE_CLIENT_PREFIX), row.record)
  }

  function ClientsOf(rows: seq<Row>): (clients: seq<Client>)
    ensures |clients| == |rows| && forall i :: 0 <= i < |rows| ==> clients[i] == ClientOf(rows[i])
  {
    seq(|rows|, i requires 0 <= i < |rows| => ClientOf(rows[i]))
  }

  /** The inner loop, over one page. */
  method AppendPage(clients: seq<Client>, rows: seq<Row>) returns (all: seq<Client>)
    ensures all == clients + ClientsOf(rows)
  {
    all := clients;
    for i := 0 to |rows|
      invariant all == clients + ClientsOf(rows[..i])
    {
      assert ClientsOf(rows[..i + 1]) == ClientsOf(rows[..i]) + [ClientOf(rows[i])];
      all := all + [ClientOf(rows[i])];
    }
    assert rows[..|rows|] == rows;
  }

  /**
    The rows listed so far are ascending, up to `startKey`, all still there, and miss none of
    those that were there from the start; they are a prefix if the index stands still.
   */
  ghost predicate ListedUpTo(listed: seq<Row>, startKey: Option<string>, first: seq<Row>, rows: seq<Row>) {
    && Ascending(Keys(listed))
    && (forall key :: key in Keys(listed) ==> startKey.Some? && !Below(startKey.value, key) && key in Keys(rows))
    && (startKey.Some? ==> forall key :: key in Keys(first) && !Below(startKey.value, key) ==> key in Keys(listed))
  }

  lemma KeysJoin(a: seq<Row>, b: seq<Row>)
    ensures Keys(a + b) == Keys(a) + Keys(b)
  {
  }

  /** The rows of the next page come after all those listed so far. */
  lemma PageAscends(listed: seq<Row>, startKey: Option<string>, rows: seq<Row>, end: nat)
    requires Ascending(Keys(listed)) && Ascending(Keys(rows))
    requires forall key :: key in Keys(listed) ==> startKey.Some? && !Below(startKey.value, key)
    requires UpTo(rows, startKey) <= end <= |rows|
    ensures Ascending(Keys(listed + rows[UpTo(rows, startKey)..end]))
  {
    var start := UpTo(rows, startKey);
    var all := Keys(listed + rows[start..end]);
    forall i, j | 0 <= i < j < |all| ensures Below(all[i], all[j]) {
      if j < |listed| {
        assert Below(Keys(listed)[i], Keys(listed)[j]);
      } else if i < |listed| {
        assert Keys(listed)[i] in Keys(listed);
        Between(Keys(listed)[i], startKey.value, rows[start + j - |listed|].key);
      } else {
        assert Below(Keys(rows)[start + i - |listed|], Keys(rows)[start + j - |listed|]);
      }
    }
  }

  /** The page adds its own rows, and with it nothing of `first` is missed. */
  lemma PageCovers(listed: seq<Row>, startKey: Option<string>, first: seq<Row>, rows: seq<Row>, end: nat)
    requires ListedUpTo(listed, startKey, first, rows) && Ascending(Keys(rows))
    requires UpTo(rows, startKey) <= end <= |rows|
    ensures var all := listed + rows[UpTo(rows, startKey)..end];
            && (forall key :: key in Keys(all) ==> key in Keys(listed) || key in Keys(rows[..end]))
            && (forall key :: key in Keys(first) && key in Keys(rows[..end]) ==> key in Keys(all))
  {
    var start := UpTo(rows, startKey);
    KeysJoin(listed, rows[start..end]);
    KeysJoin(rows[..start], rows[start..end]);
    assert rows[..start] + rows[start..end] == rows[..end];
    forall key | key in Keys(first) && key in Keys(rows[..start]) ensures key in Keys(listed) {
      var i :| 0 <= i < start && Keys(rows[..start])[i] == key;
      assert rows[i].key == key;
    }
  }

  lemma Between(a: string, b: string, c: string)
    requires !Below(b, a) && Below(b, c)
    ensures Below(a, c)
  {
    BelowTotal(a, b);
    if a != b {
      BelowTransitive(a, b, c);
    }
  }

  lemma StillListed(listed: seq<Row>, startKey: Option<string>, first: seq<Row>, rows: seq<Row>, later: seq<Row>)
    requires ListedUpTo(listed, startKey, first, rows) && Grown(rows, later) && Grown(first, rows)
    ensures ListedUpTo(listed, startKey, first, later) && Grown(first, later)
  {
  }

  lemma ListedOn(listed: seq<Row>, startKey: Option<string>, first: seq<Row>, rows: seq<Row>, last: string)
    requires ListedUpTo(listed, startKey, first, rows) && Grown(first, rows)
    requires startKey.Some? ==> !Below(last, startKey.value)
    requires UpTo(rows, startKey) <= UpTo(rows, Some(last))
    ensures ListedUpTo(listed + rows[UpTo(rows, startKey)..UpTo(rows, Some(last))], Some(last), first, rows)
  {
    var end := UpTo(rows, Some(last));
    PageAscends(listed, startKey, rows, end);
    PageCovers(listed, startKey, first, rows, end);
    var all := listed + rows[UpTo(rows, startKey)..end];
    forall key | key in Keys(all) ensures !Below(last, key) && key in Keys(rows) {
      if key in Keys(listed) {
        if Below(last, key) {
          NotAfter(last, startKey.value, key);
        }
      } else {
        var i :| 0 <= i < end && Keys(rows[..end])[i] == key;
        assert Keys(rows)[i] == key;
      }
    }
    forall key | key in Keys(first) && !Below(last, key) ensures key in Keys(all) {
      var i :| 0 <= i < |rows| && Keys(rows)[i] == key;
      assert i < end;
      assert Keys(rows[..end])[i] == key;
    }
  }

  lemma NotAfter(a: string, b: string, c: string)
    requires !Below(a, b) && Below(a, c)
    ensures Below(b, c)
  {
    BelowTotal(a, b);
    if a != b {
      BelowTransitive(b, a, c);
    }
  }

  /**
    Fails when some query fails.  Otherwise, however the pages are cut and whatever rows the index
    gains meanwhile, every row that was there at the start is listed once, in order, with nothing
    that is not there at the end; and of an index that stands still the listing is exact.
   */
  method ListClients(index: Index) returns (clients: Option<seq<Client>>, ghost listed: seq<Row>)
    requires index.Valid()
    modifies index
    ensures index.Valid() && (clients.None? <==> Fail in old(index.cuts))
    ensures clients.Some? ==>
              && clients.value == ClientsOf(listed) && Ascending(Keys(listed))
              && (forall key :: key in Keys(old(index.rows)) ==> key in Keys(listed))
              && (forall key :: key in Keys(listed) ==> key in Keys(index.rows))
    ensures clients.Some? && Stands(old(index.rows), old(index.cuts)) ==> listed == old(index.rows) == index.rows
  {
    var all: seq<Client> := [];
    var startKey: Option<string> := None;
    ghost var first := index.rows;
    listed := [];
    while true
      invariant index.Valid() && Grown(first, index.rows) && all == ClientsOf(listed)
      invariant ListedUpTo(listed, startKey, first, index.rows)
      invariant Stands(first, old(index.cuts)) ==>
                  && index.rows == first && Stands(index.rows, index.cuts)
                  && listed == index.rows[..UpTo(index.rows, startKey)]
      invariant Fail in index.cuts <==> Fail in old(index.cuts)
      decreases |index.cuts|
    {
      ghost var before := index.rows;
      var out := index.Query(startKey);
      if out.None? {
        return None, listed;
      }
      var page := out.value;
      all := AppendPage(all, page.rows);
      StillListed(listed, startKey, first, before, index.rows);
      PageJoins(listed, page.rows);
      if page.lastEvaluatedKey.None? {
        PageAscends(listed, startKey, index.rows, |index.rows|);
        PageCovers(listed, startKey, first, index.rows, |index.rows|);
        Whole(index.rows, UpTo(index.rows, startKey));
        listed := listed + page.rows;
        break;
      }
      ListedOn(listed, startKey, first, index.rows, page.lastEvaluatedKey.value);
      Joined(index.rows, UpTo(index.rows, startKey), UpTo(index.rows, page.lastEvaluatedKey));
      listed := listed + page.rows;
      startKey := page.lastEvaluatedKey;
    }
    return Some(all), listed;
  }

  lemma PageJoins(listed: seq<Row>, page: seq<Row>)
    ensures ClientsOf(listed) + ClientsOf(page) == ClientsOf(listed + page)
  {
  }

  lemma Joined(rows: seq<Row>, start: nat, end: nat)
    requires start <= end <= |rows|
    ensures rows[..start] + rows[start..end] == rows[..end]
  {
  }

  lemma Whole(rows: seq<Row>, start: nat)
    requires start <= |rows|
    ensures rows[start..|rows|] == rows[start..] && rows[..start] + rows[start..] == rows && rows[..|rows|] == rows
  {
  }

  function Ids(clients: seq<Client>): (ids: seq<string>)
    ensures |ids| == |clients| && forall i :: 0 <= i < |clients| ==> ids[i] == clients[i].id
  {
    seq(|clients|, i requires 0 <= i < |clients| => clients[i].id)
  }

  lemma PrefixOrder(a: string, b: string)
    ensures Below(ClientKey(a), ClientKey(b)) <==> Below(a, b)
  {
    DropCommonPrefix(MACHINE_CLIENT_PREFIX, a, b);
  }

  lemma {:induction false} DropCommonPrefix(prefix: string, a: string, b: string)
    ensures Below(prefix + a, prefix + b) <==> Below(a, b)
  {
    if prefix == "" {
      assert prefix + a == a && prefix + b == b;
    } else {
      DropCommonPrefix(prefix[1..], a, b);
      assert (prefix + a)[1..] == prefix[1..] + a && (prefix + b)[1..] == prefix[1..] + b;
    }
  }

  /**
    The listing of the index of a table is exactly its client records: ids strictly ascending,
    so each once, and an id is listed with a record exactly when the table holds that record
    for it.
   */
  lemma ListsEveryClient(items: Items, rows: seq<Row>)
    requires Typed(items) && Indexes(rows, items)
    ensures Ascending(Ids(ClientsOf(rows)))
    ensures forall id, record :: ClientAt(items, id) == Some(record) <==> Client(id, record) in ClientsOf(rows)
  {
    var clients := ClientsOf(rows);
    forall i | 0 <= i < |rows| ensures rows[i].key == ClientKey(clients[i].id) {
      RowKey(items, rows[i]);
    }
    forall i, j | 0 <= i < j < |rows| ensures Below(Ids(clients)[i], Ids(clients)[j]) {
      assert Below(Keys(rows)[i], Keys(rows)[j]);
      PrefixOrder(clients[i].id, clients[j].id);
    }
    forall id, record ensures ClientAt(items, id) == Some(record) <==> Client(id, record) in clients {
      if ClientAt(items, id) == Some(record) {
        assert ClientKey(id) in Keys(rows);
        var i :| 0 <= i < |rows| && rows[i].key == ClientKey(id);
        TrimUndoesKey(id);
        assert clients[i] == Client(id, record);
      }
    }
  }

  /**
    A listing over an index that gained rows meanwhile still has every client of the table it
    began with, once and in id order.
   */
  lemma ListsEveryEarlyClient(items: Items, rows: seq<Row>, later: Items, laterRows: seq<Row>, listed: seq<Row>)
    requires Typed(items) && Indexes(rows, items) && Typed(later) && Indexes(laterRows, later)
    requires Ascending(Keys(listed)) && forall key :: key in Keys(rows) ==> key in Keys(listed)
    requires forall key :: key in Keys(listed) ==> key in Keys(laterRows)
    ensures Ascending(Ids(ClientsOf(listed)))
    ensures forall id :: ClientAt(items, id).Some? ==> id in Ids(ClientsOf(listed))
  {
    var clients := ClientsOf(listed);
    forall i | 0 <= i < |listed| ensures listed[i].key == ClientKey(clients[i].id) {
      assert Keys(listed)[i] in Keys(laterRows);
      var j :| 0 <= j < |laterRows| && Keys(laterRows)[j] == listed[i].key;
      RowKey(later, laterRows[j]);
    }
    forall i, j | 0 <= i < j < |listed| ensures Below(Ids(clients)[i], Ids(clients)[j]) {
      assert Below(Keys(listed)[i], Keys(listed)[j]);
      PrefixOrder(clients[i].id, clients[j].id);
    }
    forall id | ClientAt(items, id).Some? ensures id in Ids(clients) {
      assert ClientKey(id) in Keys(rows);
      var i :| 0 <= i < |listed| && Keys(listed)[i] == ClientKey(id);
      TrimUndoesKey(id);
      assert Ids(clients)[i] == id;
    }
  }

  lemma RowKey(items: Items, row: Row)
    requires Typed(items) && row.key in items && items[row.key].ClientItem?
    ensures row.key == ClientKey(ClientOf(row).id)
  {
    assert row.key == ClientKey(row.key[7..]);
    TrimUndoesKey(row.key[7..]);
  }
}
