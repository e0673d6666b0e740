/**
Keyset pagination of ListProducts, SearchProducts and ListOrders.

A row's id is the number its UUID stands for; a table is its rows in id order. The WHERE clause of
each query besides the cursor is an arbitrary predicate (active, category, search text, customer).
How an id is written as text, and how the database reads a text as an id, are parameters.
*/
module Pagination {
  import opened Common
  import opened Cursor

  datatype Row<T> = Row(id: nat, data: T)

  ghost predicate Sorted<T(!new)>(table: seq<Row<T>>) {
    forall i, j :: 0 <= i < j < |table| ==> table[i].id < table[j].id
  }

  predicate AfterCursor<T>(r: Row<T>, cursor: Option<nat>) {
    cursor.None? || r.id > cursor.value
  }

  /** SELECT ... WHERE match AND id > cursor ORDER BY id */
  function Select<T>(table: seq<Row<T>>, match_: T -> bool, cursor: Option<nat>): seq<Row<T>> {
    if table == [] then []
    else if match_(table[0].data) && AfterCursor(table[0], cursor)
    then [table[0]] + Select(table[1..], match_, cursor)
    else Select(table[1..], match_, cursor)
  }

  function Limit<T>(rows: seq<Row<T>>, n: nat): seq<Row<T>> {
    if |rows| <= n then rows else rows[..n]
  }

  /** The page size a caller gets for the one it asked for. */
  function PageSize(requested: int): (n: nat)
    ensures 1 <= n <= 100
    ensures n == requested || (n == 20 && (requested <= 0 || requested > 100))
  {
    if requested <= 0 || requested > 100 then 20 else requested
  }

  datatype Page<T> = Page(rows: seq<Row<T>>, next: Option<nat>)

  function PageOf<T>(table: seq<Row<T>>, match_: T -> bool, requested: int, cursor: Option<nat>): Page<T> {
    var found := Select(table, match_, cursor);
    var n := PageSize(requested);
    if |found| > n then Page(found[..n], Some(found[n - 1].id)) else Page(found, None)
  }

  datatype Reply<T> = Listed(rows: seq<Row<T>>, token: string) | InvalidId

  function ReplyOf<T>(page: Page<T>, text: nat -> seq<Byte>): Reply<T> {
    Listed(page.rows, if page.next.None? then "" else Encode(text(page.next.value)))
  }

  /** What a list call answers. A token that does not decode is treated as no token at all; one that
      decodes to something that is no id makes the query fail. */
  function Answer<T>(table: seq<Row<T>>, match_: T -> bool, requested: int, token: string,
                     text: nat -> seq<Byte>, parse: seq<Byte> -> Option<nat>): Reply<T> {
    var cursor := Decode(token);
    if cursor.None? || cursor.value == [] then ReplyOf(PageOf(table, match_, requested, None), text)
    else if parse(cursor.value).None? then InvalidId
    else ReplyOf(PageOf(table, match_, requested, parse(cursor.value)), text)
  }

  /** What a token means: one that decodes to the text of an id stands for the rows behind that id, one
      that decodes to any other text is refused, and every other token for all rows. */
  lemma AnswerDecides<T>(table: seq<Row<T>>, match_: T -> bool, requested: int, token: string,
                         text: nat -> seq<Byte>, parse: seq<Byte> -> Option<nat>)
    ensures var decoded := Decode(token);
            var reply := Answer(table, match_, requested, token, text, parse);
            && (reply == InvalidId <==> decoded.Some? && decoded.value != [] && parse(decoded.value) == None)
            && (decoded.Some? && decoded.value != [] && parse(decoded.value).Some? ==>
                  reply == ReplyOf(PageOf(table, match_, requested, parse(decoded.value)), text))
            && (decoded.None? || decoded.value == [] ==>
                  reply == ReplyOf(PageOf(table, match_, requested, None), text))
  {
  }

  /** A page holds the first rows that the query finds, as many as the page size or all; its token names
      its last row if there are more, and is empty otherwise. */
  lemma PageExact<T>(table: seq<Row<T>>, match_: T -> bool, requested: int, cursor: Option<nat>)
    ensures var found, n := Select(table, match_, cursor), PageSize(requested);
            var page := PageOf(table, match_, requested, cursor);
            && page.rows <= found && |page.rows| == (if |found| < n then |found| else n)
            && (page.next.Some? <==> |found| > |page.rows|)
            && (page.next.Some? ==> page.rows != [] && page.next.value == page.rows[|page.rows| - 1].id)
  {
  }

  /** One more row than the page holds is fetched, to learn whether there is a next page. */
  method ListPage<T>(table: seq<Row<T>>, match_: T -> bool, requested: int, token: string,
                     text: nat -> seq<Byte>, parse: seq<Byte> -> Option<nat>) returns (reply: Reply<T>)
    ensures reply == Answer(table, match_, requested, token, text, parse)
  {
    var pageSize := requested;
    if pageSize <= 0 || pageSize > 100 { pageSize := 20; }
    var decoded := Decode(token);
    var cursor: seq<Byte> := if decoded.Some? then decoded.value else [];
    var rows;
    if cursor != [] {
      var id := parse(cursor);
      if id.None? { return InvalidId; }
      rows := Limit(Select(table, match_, id), pageSize + 1);
    } else {
      rows := Limit(Select(table, match_, None), pageSize + 1);
    }
    ghost var page := PageOf(table, match_, requested, if cursor == [] then None else parse(cursor));
    var nextToken := "";
    if |rows| > pageSize {
      rows := rows[..pageSize];
      nextToken := Encode(text(rows[|rows| - 1].id));
    }
    assert rows == page.rows;
    reply := Listed(rows, nextToken);
  }

  /******* One query *******/

  lemma {:induction false} SelectMembers<T>(table: seq<Row<T>>, match_: T -> bool, cursor: Option<nat>, r: Row<T>)
    ensures r in Select(table, match_, cursor) <==> r in table && match_(r.data) && AfterCursor(r, cursor)
  {
    if table == [] {
    } else {
      SelectMembers(table[1..], match_, cursor, r);
      assert r in table <==> r == table[0] || r in table[1..];
    }
  }

  lemma {:induction false} SelectSorted<T(!new)>(table: seq<Row<T>>, match_: T -> bool, cursor: Option<nat>)
    requires Sorted(table)
    ensures Sorted(Select(table, match_, cursor))
  {
    if table == [] {
    } else {
      SelectSorted(table[1..], match_, cursor);
      var rest := Select(table[1..], match_, cursor);
      forall k | 0 <= k < |rest| ensures table[0].id < rest[k].id {
        SelectMembers(table[1..], match_, cursor, rest[k]);
      }
    }
  }

  /** A query finds the matching rows behind its cursor, and nothing else, in id order. */
  lemma SelectExact<T(!new)>(table: seq<Row<T>>, match_: T -> bool, cursor: Option<nat>)
    requires Sorted(table)
    ensures Sorted(Select(table, match_, cursor))
    ensures forall r :: r in Select(table, match_, cursor) <==> r in table && match_(r.data) && AfterCursor(r, cursor)
  {
    SelectSorted(table, match_, cursor);
    forall r ensures r in Select(table, match_, cursor) <==> r in table && match_(r.data) && AfterCursor(r, cursor) {
      SelectMembers(table, match_, cursor, r);
    }
  }

  lemma {:induction false} SelectNothingBefore<T(!new)>(table: seq<Row<T>>, match_: T -> bool, c: nat)
    requires Sorted(table) && (table != [] ==> table[0].id > c)
    ensures Select(table, match_, Some(c)) == Select(table, match_, None)
  {
    if table == [] {
    } else {
      SelectNothingBefore(table[1..], match_, c);
    }
  }

  lemma {:induction false} SelectSame<T(!new)>(table: seq<Row<T>>, match_: T -> bool, cursor: Option<nat>)
    requires Sorted(table) && (table != [] ==> AfterCursor(table[0], cursor))
    ensures Select(table, match_, cursor) == Select(table, match_, None)
  {
    if table == [] {
    } else {
      SelectSame(table[1..], match_, cursor);
    }
  }

  /** Everything a query finds in the rest of a sorted table lies behind the table's first row. */
  lemma SelectBehindHead<T(!new)>(table: seq<Row<T>>, match_: T -> bool, cursor: Option<nat>, n: nat)
    requires Sorted(table) && table != [] && n < |Select(table[1..], match_, cursor)|
    ensures table[0].id < Select(table[1..], match_, cursor)[n].id
  {
    SelectExact(table[1..], match_, cursor);
    assert Select(table[1..], match_, cursor)[n] in table[1..];
  }

  /** The rows behind the n-th found row are the rest of the found rows. */
  lemma {:induction false} SelectAfter<T(!new)>(table: seq<Row<T>>, match_: T -> bool, cursor: Option<nat>, n: nat)
    requires Sorted(table) && n < |Select(table, match_, cursor)|
    ensures var found := Select(table, match_, cursor);
            Select(table, match_, Some(found[n].id)) == found[n + 1..]
  {
    var rest := Select(table[1..], match_, cursor);
    if match_(table[0].data) && AfterCursor(table[0], cursor) {
      if n == 0 {
        SelectNothingBefore(table[1..], match_, table[0].id);
        SelectSame(table[1..], match_, cursor);
      } else {
        SelectBehindHead(table, match_, cursor, n - 1);
        SelectAfter(table[1..], match_, cursor, n - 1);
        assert rest[n..] == Select(table, match_, cursor)[n + 1..];
      }
    } else {
      SelectBehindHead(table, match_, cursor, n);
      SelectAfter(table[1..], match_, cursor, n);
    }
  }

  /******* A traversal over a fixed table *******/

  /** All pages from a cursor on, concatenated; every page makes progress. */
  function Traverse<T>(table: seq<Row<T>>, match_: T -> bool, requested: int, cursor: Option<nat>,
      fuel: nat): seq<Row<T>>
    decreases fuel
  {
    var page := PageOf(table, match_, requested, cursor);
    if page.next.None? || fuel == 0 then page.rows
    else page.rows + Traverse(table, match_, requested, page.next, fuel - 1)
  }

  /** One page and the rest of a traversal, in terms of what the query finds. */
  lemma TraverseStep<T>(table: seq<Row<T>>, match_: T -> bool, requested: int, cursor: Option<nat>, fuel: nat)
    ensures var found, n := Select(table, match_, cursor), PageSize(requested);
            Traverse(table, match_, requested, cursor, fuel)
            == if |found| <= n then found
               else if fuel == 0 then found[..n]
               else found[..n] + Traverse(table, match_, requested, Some(found[n - 1].id), fuel - 1)
  {
  }

  lemma RestAfterPage<T(!new)>(table: seq<Row<T>>, match_: T -> bool, cursor: Option<nat>, n: nat)
    requires Sorted(table) && 0 < n < |Select(table, match_, cursor)|
    ensures var found := Select(table, match_, cursor);
            var rest := Select(table, match_, Some(found[n - 1].id));
            found[..n] + rest == found && |rest| < |found|
  {
    SelectAfter(table, match_, cursor, n - 1);
  }

  /** If the rest of a traversal yields what is behind the page, the whole yields what is behind the cursor. */
  lemma TraversePage<T(!new)>(table: seq<Row<T>>, match_: T -> bool, requested: int, cursor: Option<nat>, fuel: nat)
    requires Sorted(table) && fuel > 0
    requires var found, n := Select(table, match_, cursor), PageSize(requested);
             && |found| > n
             && Traverse(table, match_, requested, Some(found[n - 1].id), fuel - 1)
                == Select(table, match_, Some(found[n - 1].id))
    ensures Traverse(table, match_, requested, cursor, fuel) == Select(table, match_, cursor)
  {
    TraverseStep(table, match_, requested, cursor, fuel);
    RestAfterPage(table, match_, cursor, PageSize(requested));
  }

  /** Following the tokens ends within as many pages as there are rows, and yields exactly the
      sorted filtered list, for every requested page size. */
  lemma {:induction false} TraverseAll<T(!new)>(table: seq<Row<T>>, match_: T -> bool, requested: int,
      cursor: Option<nat>, fuel: nat)
    requires Sorted(table) && fuel >= |Select(table, match_, cursor)|
    ensures Traverse(table, match_, requested, cursor, fuel) == Select(table, match_, cursor)
    decreases fuel
  {
    var found, n := Select(table, match_, cursor), PageSize(requested);
    if |found| <= n {
      TraverseStep(table, match_, requested, cursor, fuel);
    } else {
      RestAfterPage(table, match_, cursor, n);
      TraverseAll(table, match_, requested, Some(found[n - 1].id), fuel - 1);
      TraversePage(table, match_, requested, cursor, fuel);
    }
  }

  /******* The client's view: tokens are opaque strings *******/

  /** The rows a client collects by sending each reply's token back until it is empty. */
  function Follow<T>(answer: string -> Reply<T>, token: string, fuel: nat): seq<Row<T>>
    decreases fuel
  {
    var reply := answer(token);
    if reply.InvalidId? then []
    else if reply.token == "" || fuel == 0 then reply.rows
    else reply.rows + Follow(answer, reply.token, fuel - 1)
  }

  function TokenFor(cursor: Option<nat>, tokenOf: nat -> string): string {
    if cursor.None? then "" else tokenOf(cursor.value)
  }

  /** Every cursor's token is answered with the page behind that cursor and the next cursor's token. */
  ghost predicate Serves<T(!new)>(answer: string -> Reply<T>, table: seq<Row<T>>, match_: T -> bool, requested: int,
      tokenOf: nat -> string) {
    && (forall id: nat :: tokenOf(id) != "")
    && (forall c: Option<nat> ::
          var page := PageOf(table, match_, requested, c);
          answer(TokenFor(c, tokenOf)) == Listed(page.rows, TokenFor(page.next, tokenOf)))
  }

  /** Sending a reply's token back is going on from the last row shown. */
  lemma {:induction false} FollowIsTraverse<T(!new)>(answer: string -> Reply<T>, table: seq<Row<T>>,
      match_: T -> bool, requested: int, tokenOf: nat -> string, cursor: Option<nat>, fuel: nat)
    requires Serves(answer, table, match_, requested, tokenOf)
    ensures Follow(answer, TokenFor(cursor, tokenOf), fuel) == Traverse(table, match_, requested, cursor, fuel)
    decreases fuel
  {
    var page := PageOf(table, match_, requested, cursor);
    if page.next.Some? && fuel > 0 {
      FollowIsTraverse(answer, table, match_, requested, tokenOf, page.next, fuel - 1);
    }
  }

  /** Ids have texts, and the database reads a text back as the id it was written from. */
  ghost predicate Inverse(text: nat -> seq<Byte>, parse: seq<Byte> -> Option<nat>) {
    forall id: nat :: text(id) != [] && parse(text(id)) == Some(id)
  }

  lemma TokenAnswer<T>(table: seq<Row<T>>, match_: T -> bool, requested: int, cursor: Option<nat>,
                       text: nat -> seq<Byte>, parse: seq<Byte> -> Option<nat>)
    requires Inverse(text, parse)
    ensures var token := TokenFor(cursor, (id: nat) => Encode(text(id)));
            Answer(table, match_, requested, token, text, parse)
            == ReplyOf(PageOf(table, match_, requested, cursor), text)
  {
    if cursor.Some? { RoundTrip(text(cursor.value)); }
  }

  lemma AnswerServes<T(!new)>(table: seq<Row<T>>, match_: T -> bool, requested: int,
                              text: nat -> seq<Byte>, parse: seq<Byte> -> Option<nat>)
    requires Inverse(text, parse)
    ensures Serves(token => Answer(table, match_, requested, token, text, parse), table, match_, requested,
                   (id: nat) => Encode(text(id)))
  {
    forall id: nat ensures Encode(text(id)) != "" { RoundTrip(text(id)); }
    forall c: Option<nat>
      ensures Answer(table, match_, requested, TokenFor(c, (id: nat) => Encode(text(id))), text, parse)
              == ReplyOf(PageOf(table, match_, requested, c), text)
    {
      TokenAnswer(table, match_, requested, c, text, parse);
    }
  }

  /** From the empty token, by tokens alone, a client gets the sorted filtered list. */
  lemma FollowAll<T(!new)>(table: seq<Row<T>>, match_: T -> bool, requested: int,
                           text: nat -> seq<Byte>, parse: seq<Byte> -> Option<nat>, fuel: nat)
    requires Sorted(table) && Inverse(text, parse) && fuel >= |Select(table, match_, None)|
    ensures var rows := Follow(token => Answer(table, match_, requested, token, text, parse), "", fuel);
            && rows == Select(table, match_, None) && Sorted(rows)
            && forall r :: r in rows <==> r in table && match_(r.data)
  {
    AnswerServes(table, match_, requested, text, parse);
    FollowIsTraverse(token => Answer(table, match_, requested, token, text, parse), table, match_, requested,
        (id: nat) => Encode(text(id)), None, fuel);
    TraverseAll(table, match_, requested, None, fuel);
    SelectExact(table, match_, None);
  }

  /** The token is answered as no token at all. */
  ghost predicate Restarts<T>(table: seq<Row<T>>, match_: T -> bool, requested: int, token: string,
                              text: nat -> seq<Byte>, parse: seq<Byte> -> Option<nat>) {
    Answer(table, match_, requested, token, text, parse) == Answer(table, match_, requested, "", text, parse)
  }

  lemma RestartsIfNothing<T>(table: seq<Row<T>>, match_: T -> bool, requested: int, token: string,
                             text: nat -> seq<Byte>, parse: seq<Byte> -> Option<nat>)
    requires !WellFormed(Stripped(token)) || Stripped(token) == ""
    ensures Restarts(table, match_, requested, token, text, parse)
  {
    DecodesExactly(token);
    DecodesToNothing(token);
  }

  /** A table on which any other token is told from the empty one. */
  lemma OtherwiseNot<T>(match_: T -> bool, d: T, requested: int, token: string,
                        text: nat -> seq<Byte>, parse: seq<Byte> -> Option<nat>) returns (table: seq<Row<T>>)
    requires match_(d) && WellFormed(Stripped(token)) && Stripped(token) != ""
    ensures |table| <= 1
    ensures !Restarts(table, match_, requested, token, text, parse)
  {
    DecodesExactly(token);
    DecodesToNothing(token);
    var id := parse(Decode(token).value);
    if id.None? {
      table := [];
    } else {
      table := [Row(id.value, d)];
      assert Select(table, match_, None) == table && Select(table, match_, id) == [];
    }
  }

  /** A token silently starts the listing again, on every table, if and only if it is not base64 or is
      empty but for line breaks; neither is an error. */
  lemma RestartsExactly<T(!new)>(match_: T -> bool, d: T, requested: int, token: string,
                                 text: nat -> seq<Byte>, parse: seq<Byte> -> Option<nat>)
    requires match_(d)
    ensures (forall table: seq<Row<T>> :: Sorted(table) ==> Restarts(table, match_, requested, token, text, parse))
            <==> !WellFormed(Stripped(token)) || Stripped(token) == ""
  {
    if WellFormed(Stripped(token)) && Stripped(token) != "" {
      var table := OtherwiseNot(match_, d, requested, token, text, parse);
      assert Sorted(table);
    } else {
      forall table: seq<Row<T>>
        ensures Restarts(table, match_, requested, token, text, parse)
      {
        RestartsIfNothing(table, match_, requested, token, text, parse);
      }
    }
  }

  /******* A traversal while the table changes *******/

  /** The pages a client sees when the table is tables[i] at its i-th request, until a page has no
      next token or it stops asking. */
  function Pages<T>(tables: seq<seq<Row<T>>>, match_: T -> bool, requested: int, cursor: Option<nat>): seq<Page<T>> {
    if tables == [] then []
    else
      var page := PageOf(tables[0], match_, requested, cursor);
      if page.next.None? then [page] else [page] + Pages(tables[1..], match_, requested, page.next)
  }

  function Concat<T>(pages: seq<Page<T>>): seq<Row<T>> {
    if pages == [] then [] else pages[0].rows + Concat(pages[1..])
  }

  ghost predicate AllSorted<T(!new)>(tables: seq<seq<Row<T>>>) {
    forall i :: 0 <= i < |tables| ==> Sorted(tables[i])
  }

  /** The traversal came to a page without a next token. */
  predicate Finished<T>(pages: seq<Page<T>>) {
    pages != [] && pages[|pages| - 1].next.None?
  }

  /** One page: strictly increasing ids behind the cursor; and the next token is the last one's. */
  lemma PageFacts<T(!new)>(table: seq<Row<T>>, match_: T -> bool, requested: int, cursor: Option<nat>)
    requires Sorted(table)
    ensures var page := PageOf(table, match_, requested, cursor);
            && Sorted(page.rows)
            && (forall r :: r in page.rows ==> AfterCursor(r, cursor))
            && (page.next.Some? ==> page.rows != [] && page.next.value == page.rows[|page.rows| - 1].id
                                    && AfterCursor(page.rows[|page.rows| - 1], cursor))
  {
    SelectExact(table, match_, cursor);
    var found := Select(table, match_, cursor);
    assert forall r :: r in PageOf(table, match_, requested, cursor).rows ==> r in found;
    if |found| > PageSize(requested) { assert found[PageSize(requested) - 1] in found; }
  }

  /** Two sorted runs whose ids a bound separates. */
  lemma SortedConcat<T(!new)>(rows: seq<Row<T>>, rest: seq<Row<T>>, bound: nat)
    requires Sorted(rows) && Sorted(rest)
    requires forall i :: 0 <= i < |rows| ==> rows[i].id <= bound
    requires forall i :: 0 <= i < |rest| ==> bound < rest[i].id
    ensures Sorted(rows + rest)
  {
  }

  lemma PageUpTo<T(!new)>(table: seq<Row<T>>, match_: T -> bool, requested: int, cursor: Option<nat>)
    requires Sorted(table) && PageOf(table, match_, requested, cursor).next.Some?
    ensures var page := PageOf(table, match_, requested, cursor);
            && (forall i :: 0 <= i < |page.rows| ==> page.rows[i].id <= page.next.value)
            && (cursor.Some? ==> cursor.value < page.next.value)
  {
    PageFacts(table, match_, requested, cursor);
  }

  /** All rows lie behind the cursor. */
  ghost predicate AllAfter<T(!new)>(rows: seq<Row<T>>, cursor: Option<nat>) {
    forall i :: 0 <= i < |rows| ==> AfterCursor(rows[i], cursor)
  }

  lemma PageAfter<T(!new)>(table: seq<Row<T>>, match_: T -> bool, requested: int, cursor: Option<nat>)
    requires Sorted(table)
    ensures var rows := PageOf(table, match_, requested, cursor).rows; Sorted(rows) && AllAfter(rows, cursor)
  {
    PageFacts(table, match_, requested, cursor);
    var rows := PageOf(table, match_, requested, cursor).rows;
    forall i | 0 <= i < |rows| ensures AfterCursor(rows[i], cursor) { assert rows[i] in rows; }
  }

  /** A page, and what is seen behind it. */
  lemma PageThenRest<T(!new)>(table: seq<Row<T>>, match_: T -> bool, requested: int, cursor: Option<nat>,
      rest: seq<Row<T>>)
    requires Sorted(table) && PageOf(table, match_, requested, cursor).next.Some?
    requires Sorted(rest) && AllAfter(rest, PageOf(table, match_, requested, cursor).next)
    ensures var seen := PageOf(table, match_, requested, cursor).rows + rest; Sorted(seen) && AllAfter(seen, cursor)
  {
    var page := PageOf(table, match_, requested, cursor);
    PageAfter(table, match_, requested, cursor);
    PageUpTo(table, match_, requested, cursor);
    SortedConcat(page.rows, rest, page.next.value);
  }

  lemma ConcatPages<T>(tables: seq<seq<Row<T>>>, match_: T -> bool, requested: int, cursor: Option<nat>)
    requires tables != []
    ensures var page := PageOf(tables[0], match_, requested, cursor);
            Concat(Pages(tables, match_, requested, cursor))
            == page.rows + if page.next.None? then [] else Concat(Pages(tables[1..], match_, requested, page.next))
  {
    var page := PageOf(tables[0], match_, requested, cursor);
    assert Pages(tables, match_, requested, cursor)[1..]
        == if page.next.None? then [] else Pages(tables[1..], match_, requested, page.next);
  }

  /** Whatever changes between the requests, the ids a client sees strictly increase. */
  lemma {:induction false} TraversalIncreases<T(!new)>(tables: seq<seq<Row<T>>>, match_: T -> bool, requested: int,
      cursor: Option<nat>)
    requires AllSorted(tables)
    ensures var seen := Concat(Pages(tables, match_, requested, cursor)); Sorted(seen) && AllAfter(seen, cursor)
  {
    if tables == [] {
    } else {
      var page := PageOf(tables[0], match_, requested, cursor);
      ConcatPages(tables, match_, requested, cursor);
      if page.next.Some? {
        TraversalIncreases(tables[1..], match_, requested, page.next);
        PageThenRest(tables[0], match_, requested, cursor, Concat(Pages(tables[1..], match_, requested, page.next)));
      } else {
        PageAfter(tables[0], match_, requested, cursor);
        assert page.rows + [] == page.rows;
      }
    }
  }

  /** The table holds a matching row with this id. */
  ghost predicate Holds<T(!new)>(table: seq<Row<T>>, match_: T -> bool, id: nat) {
    exists r :: r in table && r.id == id && match_(r.data)
  }

  predicate Seen<T>(rows: seq<Row<T>>, id: nat) {
    exists k :: 0 <= k < |rows| && rows[k].id == id
  }

  /** A first page either shows a row it found or ends before it. */
  lemma ShownOrBehind<T(!new)>(table: seq<Row<T>>, match_: T -> bool, requested: int, cursor: Option<nat>, id: nat)
    requires Sorted(table) && Holds(table, match_, id) && (cursor.None? || id > cursor.value)
    ensures var page := PageOf(table, match_, requested, cursor);
            Seen(page.rows, id) || (page.next.Some? && id > page.next.value)
  {
    var found, n := Select(table, match_, cursor), PageSize(requested);
    SelectExact(table, match_, cursor);
    var row :| row in table && row.id == id && match_(row.data);
    assert row in found;
    var k :| 0 <= k < |found| && found[k] == row;
    if |found| > n && k < n { assert found[..n][k].id == id; }
  }

  lemma SeenLater<T>(rows: seq<Row<T>>, rest: seq<Row<T>>, id: nat)
    requires Seen(rows, id) || Seen(rest, id)
    ensures Seen(rows + rest, id)
  {
    if Seen(rows, id) {
      var k :| 0 <= k < |rows| && rows[k].id == id;
      assert (rows + rest)[k].id == id;
    } else {
      var k :| 0 <= k < |rest| && rest[k].id == id;
      assert (rows + rest)[|rows| + k].id == id;
    }
  }

  /** A matching row behind the cursor that is there at every request of a finished traversal is
      seen, even if it is edited and other rows come and go between the pages. */
  lemma {:induction false} StableRowIsSeen<T(!new)>(tables: seq<seq<Row<T>>>, match_: T -> bool, requested: int,
      cursor: Option<nat>, id: nat)
    requires AllSorted(tables) && Finished(Pages(tables, match_, requested, cursor))
    requires forall i :: 0 <= i < |tables| ==> Holds(tables[i], match_, id)
    requires cursor.None? || id > cursor.value
    ensures Seen(Concat(Pages(tables, match_, requested, cursor)), id)
  {
    var page := PageOf(tables[0], match_, requested, cursor);
    var pages := Pages(tables, match_, requested, cursor);
    ShownOrBehind(tables[0], match_, requested, cursor, id);
    if !Seen(page.rows, id) {
      assert pages[1..] == Pages(tables[1..], match_, requested, page.next);
      StableRowIsSeen(tables[1..], match_, requested, page.next, id);
    }
    SeenLater(page.rows, Concat(pages[1..]), id);
  }

  predicate OnlyAt<T>(rows: seq<Row<T>>, k: nat)
    requires k < |rows|
  {
    forall j :: 0 <= j < |rows| && j != k ==> rows[j].id != rows[k].id
  }

  lemma OnePosition<T(!new)>(rows: seq<Row<T>>, id: nat)
    requires Sorted(rows) && Seen(rows, id)
    ensures exists k :: 0 <= k < |rows| && rows[k].id == id && OnlyAt(rows, k)
  {
  }

  /** Together: a stable row appears at exactly one position of what the client has seen. */
  lemma StableRowSeenOnce<T(!new)>(tables: seq<seq<Row<T>>>, match_: T -> bool, requested: int, id: nat)
    requires AllSorted(tables) && Finished(Pages(tables, match_, requested, None))
    requires forall i :: 0 <= i < |tables| ==> Holds(tables[i], match_, id)
    ensures var seen := Concat(Pages(tables, match_, requested, None));
            exists k :: 0 <= k < |seen| && seen[k].id == id && OnlyAt(seen, k)
  {
    StableRowIsSeen(tables, match_, requested, None, id);
    TraversalIncreases(tables, match_, requested, None);
    OnePosition(Concat(Pages(tables, match_, requested, None)), id);
  }
}
