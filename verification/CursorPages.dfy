/** The cursor endpoints end to end: real tokens, pages by name or by creation time. */
module CursorPages {
  import opened Base
  import opened IsoTime
  import opened Cursor
  import opened Keyset

  /** Inventories are sorted by name and id, transfers by timestamp and id. */
  type NameKey = (string, Uuid)
  type TimeKey = (Moment, Uuid)

  function EncodeName(k: NameKey): string {
    EncodeCursor(Text(k.0), k.1)
  }

  function EncodeTime(k: TimeKey): string {
    EncodeCursor(Stamp(k.0), k.1)
  }

  /** A service refuses a cursor of the wrong kind. */
  function DecodeName(token: string): Option<NameKey> {
    var decoded := DecodeCursor(token);
    if decoded.Some? && decoded.value.0.Text? then Some((decoded.value.0.text, decoded.value.1)) else None
  }

  function DecodeTime(token: string): Option<TimeKey> {
    var decoded := DecodeCursor(token);
    if decoded.Some? && decoded.value.0.Stamp? then Some((decoded.value.0.at, decoded.value.1)) else None
  }

  lemma {:induction false} NameTokens(k: NameKey)
    ensures DecodeName(EncodeName(k)) == Some(k) && DecodeTime(EncodeName(k)) == None
  {
    CursorRoundTrip(Text(k.0), k.1);
  }

  lemma {:induction false} TimeTokens(k: TimeKey)
    ensures DecodeTime(EncodeTime(k)) == Some(k) && DecodeName(EncodeTime(k)) == None
  {
    CursorRoundTrip(Stamp(k.0), k.1);
  }

  /** With tokens that come back, the pages a client collects are exactly the rows, and collecting ends. */
  lemma {:induction false} PagesAreExact<K(!new)>(
    rows: seq<K>, size: nat, less: (K, K) -> bool, encode: K -> string, decode: string -> Option<K>)
    returns (pages: seq<seq<K>>)
    requires StrictTotalOrder(less) && Sorted(rows, less) && size >= 1
    requires forall k :: decode(encode(k)) == Some(k)
    ensures Session(rows, None, pages, size, less, encode, decode)
    ensures Concat(pages) == rows
    ensures forall other :: Session(rows, None, other, size, less, encode, decode) ==> Concat(other) == rows
  {
    pages := SessionEnds(rows, 0, size, less, encode, decode);
    assert rows[0..] == rows;
    SessionIsExact(rows, 0, pages, size, less, encode, decode);
    forall other | Session(rows, None, other, size, less, encode, decode)
      ensures Concat(other) == rows
    {
      SessionIsExact(rows, 0, other, size, less, encode, decode);
    }
  }

  /**
    For a fixed table sorted by name, in either direction: the pages a client collects by following
    next_cursor are exactly the sorted rows, and following them ends.
   */
  lemma {:induction false} NamePages(rows: seq<NameKey>, size: nat, less: (NameKey, NameKey) -> bool)
    returns (pages: seq<seq<NameKey>>)
    requires StrictTotalOrder(less) && Sorted(rows, less) && size >= 1
    ensures Session(rows, None, pages, size, less, EncodeName, DecodeName)
    ensures Concat(pages) == rows
    ensures forall other :: Session(rows, None, other, size, less, EncodeName, DecodeName) ==> Concat(other) == rows
  {
    forall k: NameKey
      ensures DecodeName(EncodeName(k)) == Some(k)
    {
      NameTokens(k);
    }
    pages := PagesAreExact(rows, size, less, EncodeName, DecodeName);
  }

  /** The same for a table sorted by creation time. */
  lemma {:induction false} TimePages(rows: seq<TimeKey>, size: nat, less: (TimeKey, TimeKey) -> bool)
    returns (pages: seq<seq<TimeKey>>)
    requires StrictTotalOrder(less) && Sorted(rows, less) && size >= 1
    ensures Session(rows, None, pages, size, less, EncodeTime, DecodeTime)
    ensures Concat(pages) == rows
    ensures forall other :: Session(rows, None, other, size, less, EncodeTime, DecodeTime) ==> Concat(other) == rows
  {
    forall k: TimeKey
      ensures DecodeTime(EncodeTime(k)) == Some(k)
    {
      TimeTokens(k);
    }
    pages := PagesAreExact(rows, size, less, EncodeTime, DecodeTime);
  }
}
