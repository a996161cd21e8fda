/**
  Keyset pagination: following next_cursor page by page yields exactly the sorted result.
  `less` is the sort order of the endpoint - ascending or descending - on (sort value, id) keys.
 */
module Keyset {
  import opened Base

  ghost predicate StrictTotalOrder<K(!new)>(less: (K, K) -> bool) {
    && (forall a, b, c :: less(a, b) && less(b, c) ==> less(a, c))
    && (forall a :: !less(a, a))
    && (forall a, b :: a != b ==> less(a, b) || less(b, a))
  }

  /** The full result as ORDER BY returns it: ids are unique, so keys strictly increase. */
  ghost predicate Sorted<K>(rows: seq<K>, less: (K, K) -> bool) {
    forall i, j :: 0 <= i < j < |rows| ==> less(rows[i], rows[j])
  }

  /** WHERE key > cursor. */
  function Beyond<K>(rows: seq<K>, cursor: K, less: (K, K) -> bool): seq<K> {
    if rows == [] then []
    else if less(cursor, Last(rows)) then Beyond(Front(rows), cursor, less) + [Last(rows)]
    else Beyond(Front(rows), cursor, less)
  }

  /** The condition is added only when a cursor was sent. */
  function After<K>(rows: seq<K>, cursor: Option<K>, less: (K, K) -> bool): seq<K> {
    if cursor.None? then rows else Beyond(rows, cursor.value, less)
  }

  /** The cursor query: rows after the cursor, one more than a page. */
  function Query<K>(rows: seq<K>, cursor: Option<K>, size: nat, less: (K, K) -> bool): seq<K> {
    var found := After(rows, cursor, less);
    if |found| <= size + 1 then found else found[..size + 1]
  }

  /** build_cursor_meta: the page and the cursor of its last row, if there is more. */
  function BuildCursorMeta<K>(rows: seq<K>, size: nat): (seq<K>, Option<K>) {
    var page := if |rows| <= size then rows else rows[..size];
    (page, if |rows| > size && page != [] then Some(Last(page)) else None)
  }

  /** In a sorted result the rows after the n-th are the rest. */
  lemma {:induction false} AfterRow<K(!new)>(rows: seq<K>, n: nat, less: (K, K) -> bool)
    requires StrictTotalOrder(less) && Sorted(rows, less) && n < |rows|
    ensures Beyond(rows, rows[n], less) == rows[n + 1..]
  {
    if n < |rows| - 1 {
      AfterRow(Front(rows), n, less);
      assert Front(rows)[n] == rows[n] && less(rows[n], Last(rows));
      assert rows[n + 1..] == Front(rows)[n + 1..] + [Last(rows)];
    } else {
      AfterNone(Front(rows), Last(rows), less);
      assert !less(Last(rows), Last(rows));
    }
  }

  lemma {:induction false} AfterNone<K(!new)>(rows: seq<K>, last: K, less: (K, K) -> bool)
    requires StrictTotalOrder(less) && forall i :: 0 <= i < |rows| ==> less(rows[i], last)
    ensures Beyond(rows, last, less) == []
  {
    if rows != [] {
      AfterNone(Front(rows), last, less);
      assert less(Last(rows), last) && !less(last, last);
    }
  }

  /** A position is a cursor of the result: the start, or some row of it. */
  ghost predicate PositionOf<K>(rows: seq<K>, cursor: Option<K>, n: nat) {
    n <= |rows| && (cursor == if n == 0 then None else Some(rows[n - 1]))
  }

  lemma {:induction false} AfterPosition<K(!new)>(rows: seq<K>, cursor: Option<K>, n: nat, less: (K, K) -> bool)
    requires StrictTotalOrder(less) && Sorted(rows, less) && PositionOf(rows, cursor, n)
    ensures After(rows, cursor, less) == rows[n..]
  {
    if n == 0 {
      assert rows[0..] == rows;
    } else {
      AfterRow(rows, n - 1, less);
    }
  }

  /** One request: the token is decoded, the page is read, the next token is built. */
  function Request<K>(rows: seq<K>, token: Option<string>, size: nat, less: (K, K) -> bool,
                      encode: K -> string, decode: string -> Option<K>): Option<(seq<K>, Option<string>)>
  {
    var cursor := if token.None? then None else decode(token.value);
    if token.Some? && cursor.None? then None
    else
      var (page, next) := BuildCursorMeta(Query(rows, cursor, size, less), size);
      Some((page, if next.Some? then Some(encode(next.value)) else None))
  }

  /** The token that continues after the first `n` rows. */
  function TokenAt<K>(rows: seq<K>, n: nat, encode: K -> string): Option<string>
    requires n <= |rows|
  {
    if n == 0 then None else Some(encode(rows[n - 1]))
  }

  /** One page: the next `size` rows, and the token of the position after them. */
  lemma {:induction false} PageAt<K(!new)>(rows: seq<K>, n: nat, size: nat, less: (K, K) -> bool,
                                           encode: K -> string, decode: string -> Option<K>)
    requires StrictTotalOrder(less) && Sorted(rows, less) && size >= 1 && n <= |rows|
    requires forall k :: decode(encode(k)) == Some(k)
    ensures Request(rows, TokenAt(rows, n, encode), size, less, encode, decode) ==
            if n + size < |rows| then Some((rows[n..n + size], TokenAt(rows, n + size, encode)))
            else Some((rows[n..], None))
  {
    var cursor := if n == 0 then None else Some(rows[n - 1]);
    AfterPosition(rows, cursor, n, less);
    var found := Query(rows, cursor, size, less);
    if n + size < |rows| {
      assert found == rows[n..n + size + 1];
      assert found[..size] == rows[n..n + size];
      assert Last(found[..size]) == rows[n + size - 1];
    } else {
      assert found == rows[n..];
    }
  }

  /** A client's session: every page answers the previous page's token, the last has none. */
  ghost predicate Session<K(!new)>(rows: seq<K>, token: Option<string>, pages: seq<seq<K>>, size: nat,
                                   less: (K, K) -> bool, encode: K -> string, decode: string -> Option<K>)
    decreases |pages|
  {
    && pages != []
    && var answer := Request(rows, token, size, less, encode, decode);
    && answer.Some? && answer.value.0 == pages[0]
    && (if answer.value.1.None? then |pages| == 1
        else Session(rows, answer.value.1, pages[1..], size, less, encode, decode))
  }

  function Concat<K>(pages: seq<seq<K>>): seq<K> {
    if pages == [] then [] else pages[0] + Concat(pages[1..])
  }

  /** Every page but the last is full. */
  predicate AllFull<K>(pages: seq<seq<K>>, size: nat) {
    forall i :: 0 <= i < |pages| - 1 ==> |pages[i]| == size
  }

  /** The pages of any session from a position concatenate to the rest: none missed, none repeated. */
  lemma {:induction false} SessionIsExact<K(!new)>(rows: seq<K>, n: nat, pages: seq<seq<K>>, size: nat,
                                                   less: (K, K) -> bool, encode: K -> string, decode: string -> Option<K>)
    requires StrictTotalOrder(less) && Sorted(rows, less) && size >= 1 && n <= |rows|
    requires forall k :: decode(encode(k)) == Some(k)
    requires Session(rows, TokenAt(rows, n, encode), pages, size, less, encode, decode)
    ensures Concat(pages) == rows[n..]
    ensures AllFull(pages, size)
    decreases |pages|
  {
    forall at | 0 <= at <= |rows|
      ensures Answers(rows, at, size, less, encode, decode)
    {
      PageAt(rows, at, size, less, encode, decode);
    }
    SessionIsWalk(rows, n, pages, size, less, encode, decode);
    WalkIsExact(rows, n, pages, size);
  }

  /** The request for position `n` is answered with the next rows and the token after them. */
  ghost predicate Answers<K(!new)>(rows: seq<K>, n: nat, size: nat, less: (K, K) -> bool,
                                   encode: K -> string, decode: string -> Option<K>)
    requires n <= |rows|
  {
    Request(rows, TokenAt(rows, n, encode), size, less, encode, decode) ==
    if n + size < |rows| then Some((rows[n..n + size], TokenAt(rows, n + size, encode))) else Some((rows[n..], None))
  }

  /** The pages from position `n` on, cut from the rows themselves. */
  predicate Walk<K(==)>(rows: seq<K>, n: nat, pages: seq<seq<K>>, size: nat)
    decreases |pages|
  {
    && pages != [] && n <= |rows|
    && if n + size < |rows| then pages[0] == rows[n..n + size] && Walk(rows, n + size, pages[1..], size)
       else pages[0] == rows[n..] && |pages| == 1
  }

  lemma {:induction false} SessionIsWalk<K(!new)>(rows: seq<K>, n: nat, pages: seq<seq<K>>, size: nat,
                                                  less: (K, K) -> bool, encode: K -> string, decode: string -> Option<K>)
    requires n <= |rows| && size >= 1 && Session(rows, TokenAt(rows, n, encode), pages, size, less, encode, decode)
    requires forall at :: 0 <= at <= |rows| ==> Answers(rows, at, size, less, encode, decode)
    ensures Walk(rows, n, pages, size)
    decreases |pages|
  {
    assert Answers(rows, n, size, less, encode, decode);
    if n + size < |rows| {
      SessionIsWalk(rows, n + size, pages[1..], size, less, encode, decode);
    }
  }

  lemma {:induction false} WalkIsExact<K>(rows: seq<K>, n: nat, pages: seq<seq<K>>, size: nat)
    requires Walk(rows, n, pages, size)
    ensures n <= |rows| && Concat(pages) == rows[n..] && AllFull(pages, size)
    decreases |pages|
  {
    if n + size < |rows| {
      WalkIsExact(rows, n + size, pages[1..], size);
      PagesJoin(rows, n, size, pages);
    } else {
      LastPage(pages);
    }
  }

  lemma {:induction false} PagesJoin<K>(rows: seq<K>, n: nat, size: nat, pages: seq<seq<K>>)
    requires pages != [] && n + size <= |rows| && pages[0] == rows[n..n + size]
    requires Concat(pages[1..]) == rows[n + size..]
    requires AllFull(pages[1..], size)
    ensures Concat(pages) == rows[n..]
    ensures AllFull(pages, size)
  {
    assert rows[n..] == rows[n..n + size] + rows[n + size..];
    forall i | 0 < i < |pages| - 1
      ensures |pages[i]| == size
    {
      assert pages[i] == pages[1..][i - 1];
    }
  }

  lemma {:induction false} LastPage<K>(pages: seq<seq<K>>)
    requires |pages| == 1
    ensures Concat(pages) == pages[0]
  {
    assert pages[1..] == [];
    assert pages[0] + [] == pages[0];
  }

  /** Following the tokens terminates: every position has a session. */
  lemma {:induction false} SessionEnds<K(!new)>(rows: seq<K>, n: nat, size: nat, less: (K, K) -> bool,
                                                encode: K -> string, decode: string -> Option<K>)
    returns (pages: seq<seq<K>>)
    requires StrictTotalOrder(less) && Sorted(rows, less) && size >= 1 && n <= |rows|
    requires forall k :: decode(encode(k)) == Some(k)
    ensures Session(rows, TokenAt(rows, n, encode), pages, size, less, encode, decode)
    decreases |rows| - n
  {
    PageAt(rows, n, size, less, encode, decode);
    if n + size < |rows| {
      var rest := SessionEnds(rows, n + size, size, less, encode, decode);
      pages := [rows[n..n + size]] + rest;
      assert pages[1..] == rest;
    } else {
      pages := [rows[n..]];
    }
  }

  /** Size zero is the one case where a client loses rows: the first page ends the walk. */
  lemma {:induction false} EmptyPagesLoseEverything<K>(rows: seq<K>, less: (K, K) -> bool,
                                                      encode: K -> string, decode: string -> Option<K>)
    ensures Request(rows, None, 0, less, encode, decode) == Some(([], None))
  {
    var found := Query(rows, None, 0, less);
    assert found[..0] == [];
  }
}
