/** Cursor pagination with a one-row lookahead. */
module Listing {
  import opened Common

  const I64_MAX: int := 0x7fff_ffff_ffff_ffff
  const U64_MAX: int := 0xffff_ffff_ffff_ffff

  type U64 = x: int | 0 <= x <= 0xffff_ffff_ffff_ffff
  type U16 = x: int | 0 <= x <= 0xffff

  datatype Cursor = Cursor(offset: U64)

  datatype Page = Page(offset: U64, size: U16) {
    /** Saturates at the largest signed value. */
    function Offset(): int {
      if offset <= I64_MAX then offset else I64_MAX
    }

    /** One row more than the page holds. */
    function Limit(): int {
      size + 1
    }

    /** Drops the lookahead row and says where the next page starts. */
    function Split<T>(items: seq<T>): (seq<T>, Option<Cursor>) {
      if |items| > size then
        (items[..size], Some(Cursor(if offset + size <= U64_MAX then offset + size else U64_MAX)))
      else (items, None)
    }
  }

  function Paginate<T, E>(cursor: Option<Cursor>, size: U16, fetch: Page -> Result<seq<T>, E>)
    : Result<(seq<T>, Option<Cursor>), E>
  {
    var page := Page(if cursor.Some? then cursor.value.offset else 0, size);
    var rows :- fetch(page);
    Ok(page.Split(rows))
  }

  /** A backend that answers `LIMIT`/`OFFSET` from a fixed list. */
  function Window<T>(rows: seq<T>, page: Page): Result<seq<T>, string> {
    var from := if page.Offset() <= |rows| then page.Offset() else |rows|;
    var to := if from + page.Limit() <= |rows| then from + page.Limit() else |rows|;
    Ok(rows[from..to])
  }

  function Fetch<T>(rows: seq<T>, cursor: Option<Cursor>, size: U16): (seq<T>, Option<Cursor>) {
    Paginate(cursor, size, page => Window(rows, page)).value
  }

  function Position(cursor: Option<Cursor>): U64 {
    if cursor.Some? then cursor.value.offset else 0
  }

  /** A page inside the list holds the rows from its cursor on, and the next cursor is where it ends. */
  lemma PageIsSlice<T>(rows: seq<T>, cursor: Option<Cursor>, size: U16)
    requires |rows| <= I64_MAX && Position(cursor) <= |rows|
    ensures var (page, next) := Fetch(rows, cursor, size);
            var from := Position(cursor);
            if from + size < |rows| then page == rows[from..from + size] && next == Some(Cursor(from + size))
            else page == rows[from..] && next == None
  {
  }

  /** The pages a client sees that follows every cursor it is given. */
  function Pages<T>(rows: seq<T>, cursor: Option<Cursor>, size: U16): seq<seq<T>>
    requires |rows| <= I64_MAX && size >= 1 && Position(cursor) <= |rows|
    decreases |rows| - Position(cursor)
  {
    PageIsSlice(rows, cursor, size);
    var (page, next) := Fetch(rows, cursor, size);
    if next.None? then [page] else [page] + Pages(rows, next, size)
  }

  function Flatten<T>(pages: seq<seq<T>>): seq<T> {
    if pages == [] then [] else pages[0] + Flatten(pages[1..])
  }

  /** Following cursors from anywhere in the list gives exactly the rest of it, in full pages but for the last. */
  lemma {:induction false} PagesTile<T>(rows: seq<T>, cursor: Option<Cursor>, size: U16)
    requires |rows| <= I64_MAX && size >= 1 && Position(cursor) <= |rows|
    ensures var pages := Pages(rows, cursor, size);
            && pages != [] && Flatten(pages) == rows[Position(cursor)..]
            && (forall i :: 0 <= i < |pages| - 1 ==> |pages[i]| == size)
            && |pages[|pages| - 1]| <= size
            && (Position(cursor) < |rows| ==> pages[|pages| - 1] != [])
            && |pages| == PagesNeeded(|rows| - Position(cursor), size)
    decreases |rows| - Position(cursor)
  {
    hide Fetch;
    PageIsSlice(rows, cursor, size);
    var (page, next) := Fetch(rows, cursor, size);
    var pages := Pages(rows, cursor, size);
    if next.None? {
      assert pages[1..] == [] && page + [] == page;
    } else {
      PagesTile(rows, next, size);
      assert pages[1..] == Pages(rows, next, size);
      var from := Position(cursor);
      assert rows[from..from + size] + rows[from + size..] == rows[from..];
    }
  }

  function PagesNeeded(n: nat, size: U16): nat
    requires size >= 1
  {
    if n <= size then 1 else 1 + PagesNeeded(n - size, size)
  }

  function Ceiling(n: nat, size: U16): nat
    requires size >= 1
  {
    (n + size - 1) / size
  }

  lemma TimesOrder(d: nat, a: int, b: int)
    ensures a >= b ==> d * a >= d * b
  {
    if a >= b {
      var gap: nat := a - b;
      assert d * a == d * b + d * gap;
    }
  }

  lemma OneMore(m: nat, d: nat)
    requires d > 0
    ensures (m + d) / d == m / d + 1
  {
    var p, q := (m + d) / d, m / d;
    TimesOrder(d, p, q + 2);
    TimesOrder(d, q, p);
    assert d * (q + 2) == d * q + 2 * d;
  }

  lemma {:induction false} NeededIsCeiling(n: nat, size: U16)
    requires size >= 1
    ensures PagesNeeded(n, size) == if n == 0 then 1 else Ceiling(n, size)
  {
    if n > size {
      NeededIsCeiling(n - size, size);
      OneMore(n - size + size - 1, size);
    } else if n > 0 {
      OneMore(n - 1, size);
    }
  }

  /** From the first page on, a client reads the whole list in as many pages as it takes, and in one if it is empty. */
  lemma ListIsRead<T>(rows: seq<T>, size: U16)
    requires |rows| <= I64_MAX && size >= 1
    ensures var pages := Pages(rows, None, size);
            && Flatten(pages) == rows
            && |pages| == if rows == [] then 1 else Ceiling(|rows|, size)
  {
    PagesTile(rows, None, size);
    NeededIsCeiling(|rows|, size);
    assert rows[0..] == rows;
  }

  /** A page size of zero never gets past the first row: the next cursor is the one it came from. */
  lemma EmptyPagesNeverAdvance<T>(rows: seq<T>, cursor: Option<Cursor>)
    requires Position(cursor) < |rows| <= I64_MAX
    ensures Fetch(rows, cursor, 0) == ([], Some(Cursor(Position(cursor))))
  {
    PageIsSlice(rows, cursor, 0);
  }
}
