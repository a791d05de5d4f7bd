/** Pages of a bulk listing, and the cursors that lead from one to the next and back. */
module BulkCursors {
  import opened Text
  import opened Decimals

  // ---- cursors ----

  datatype Start = At(offset: int) | InvalidCursor | OtherSelection | BothCursors

  const PREFIX := "bulk-fields:"

  /** The text of a cursor, before it is put into base64. */
  function Encode(query: string, offset: nat): string {
    PREFIX + query + ":" + Itoa(offset)
  }

  /** The position of the first colon, or the length when there is none. */
  function Colon(text: string): (i: nat)
    ensures i <= |text| && ':' !in text[..i] && (i < |text| ==> text[i] == ':')
  {
    if text == "" || text[0] == ':' then 0
    else
      var i := 1 + Colon(text[1..]);
      assert text[..i] == [text[0]] + text[1..][..i - 1];
      i
  }

  function Decode(query: string, cursor: string): Start {
    if !(PREFIX <= cursor) then InvalidCursor
    else
      var rest := cursor[|PREFIX|..];
      var i := Colon(rest);
      if i == |rest| then InvalidCursor
      else
        var offset := Atoi(rest[i + 1..]);
        if offset.Malformed? || offset.n < 0 then InvalidCursor
        else if rest[..i] != query then OtherSelection
        else At(offset.n)
  }

  lemma {:induction false} ColonAt(issued: string, tail: string)
    requires ':' !in issued
    ensures Colon(issued + ":" + tail) == |issued|
  {
    var text := issued + ":" + tail;
    if issued != "" {
      assert issued[0] in issued;
      assert text[1..] == issued[1..] + ":" + tail;
      ColonAt(issued[1..], tail);
    }
  }

  /** What is issued under a query decodes to its offset under that query, and under no other. */
  lemma IssuedDecodes(issued: string, offset: nat, query: string)
    requires ':' !in issued && offset <= MAX_INT
    ensures Decode(query, Encode(issued, offset)) == if query == issued then At(offset) else OtherSelection
  {
    hide Colon, Atoi, Itoa;
    var cursor := Encode(issued, offset);
    var rest := issued + ":" + Itoa(offset);
    assert cursor == PREFIX + rest;
    assert PREFIX <= cursor && cursor[|PREFIX|..] == rest;
    ColonAt(issued, Itoa(offset));
    assert rest[..|issued|] == issued && rest[|issued| + 1..] == Itoa(offset);
    AtoiOfItoa(offset);
  }

  /** Whatever decodes carries the query it is used under. */
  lemma DecodedWasIssued(query: string, cursor: string)
    requires Decode(query, cursor).At?
    ensures PREFIX + query + ":" <= cursor && Decode(query, cursor).offset >= 0
  {
    hide Atoi;
    var rest := cursor[|PREFIX|..];
    assert cursor == PREFIX + rest && rest == rest[..Colon(rest)] + ":" + rest[Colon(rest) + 1..];
  }

  // ---- pages ----

  const PAGE_SIZE := 50

  /** Where the page begins that a request asks for; an empty cursor is no cursor. */
  function PageStart(startingAfter: string, endingBefore: string, query: string, total: nat): Start {
    if startingAfter != "" && endingBefore != "" then BothCursors
    else if startingAfter != "" then
      var start := Decode(query, startingAfter);
      if start.At? && start.offset > total then InvalidCursor else start
    else if endingBefore != "" then
      var start := Decode(query, endingBefore);
      if !start.At? then start
      else if start.offset > total then InvalidCursor
      else At(if start.offset < PAGE_SIZE then 0 else start.offset - PAGE_SIZE)
    else At(0)
  }

  /** Without a cursor the page begins at the first item, and with two of them there is none. */
  lemma NoCursorStartsAtFirst(startingAfter: string, endingBefore: string, query: string, total: nat)
    ensures PageStart("", "", query, total) == At(0)
    ensures PageStart(startingAfter, endingBefore, query, total) == BothCursors <==> startingAfter != "" && endingBefore != ""
    ensures PageStart(startingAfter, endingBefore, query, total).At? ==>
              0 <= PageStart(startingAfter, endingBefore, query, total).offset <= total
  {
    hide Colon, Atoi;
  }

  function PageEnd(start: nat, total: nat): nat {
    if start + PAGE_SIZE < total then start + PAGE_SIZE else total
  }

  datatype Page<T> = Page(items: seq<T>, endingBefore: string, startingAfter: string)

  function PageAt<T>(items: seq<T>, query: string, start: nat): Page<T>
    requires start <= |items|
  {
    var end := PageEnd(start, |items|);
    Page(items[start..end],
         if start > 0 then Encode(query, start) else "",
         if end < |items| then Encode(query, end) else "")
  }

  lemma EncodedNotEmpty(query: string, offset: nat)
    ensures Encode(query, offset) != ""
  {
    assert |Encode(query, offset)| >= |PREFIX|;
  }

  /** The cursor to the next page leads to where this one ends. */
  lemma NextPage<T>(items: seq<T>, query: string, start: nat)
    requires ':' !in query && start <= |items| <= MAX_INT
    ensures var next := PageAt(items, query, start).startingAfter;
            && (next == "" <==> PageEnd(start, |items|) == |items|)
            && (next != "" ==> PageStart(next, "", query, |items|) == At(PageEnd(start, |items|)))
  {
    hide Encode, Decode;
    var end := PageEnd(start, |items|);
    EncodedNotEmpty(query, end);
    IssuedDecodes(query, end, query);
  }

  /** The cursor back from a page leads to the start of the page that ends where this one begins. */
  lemma PreviousPage<T>(items: seq<T>, query: string, start: nat)
    requires ':' !in query && 0 < start <= |items| <= MAX_INT
    ensures var back := PageStart("", PageAt(items, query, start).endingBefore, query, |items|);
            && back == At(if start < PAGE_SIZE then 0 else start - PAGE_SIZE)
            && (start % PAGE_SIZE == 0 ==> PageEnd(back.offset, |items|) == start)
  {
    hide Encode, Decode;
    EncodedNotEmpty(query, start);
    IssuedDecodes(query, start, query);
  }

  /** The pages read by following the cursors onwards from one of them. */
  function Pages<T>(items: seq<T>, query: string, start: nat): (pages: seq<seq<T>>)
    requires ':' !in query && start <= |items| <= MAX_INT
    decreases |items| - start
  {
    var page := PageAt(items, query, start);
    if page.startingAfter == "" then [page.items]
    else
      NextPage(items, query, start);
      [page.items] + Pages(items, query, PageStart(page.startingAfter, "", query, |items|).offset)
  }

  function Joined<T>(pages: seq<seq<T>>): seq<T> {
    if pages == [] then [] else pages[0] + Joined(pages[1..])
  }

  /** Following the cursors from the first page visits every item, once and in order, and stops. */
  lemma {:induction false} PagesCover<T>(items: seq<T>, query: string, start: nat)
    requires ':' !in query && start <= |items| <= MAX_INT
    ensures Joined(Pages(items, query, start)) == items[start..]
    decreases |items| - start
  {
    hide PageStart, Encode, Joined;
    var page := PageAt(items, query, start);
    NextPage(items, query, start);
    if page.startingAfter != "" {
      var end := PageEnd(start, |items|);
      PagesCover(items, query, end);
      JoinedCons(page.items, Pages(items, query, end));
      assert items[start..end] + items[end..] == items[start..];
    } else {
      JoinedOne(page.items);
    }
  }

  lemma JoinedOne<T>(page: seq<T>)
    ensures Joined([page]) == page
  {
    assert [page][1..] == [];
  }

  lemma JoinedCons<T>(page: seq<T>, pages: seq<seq<T>>)
    ensures Joined([page] + pages) == page + Joined(pages)
  {
    assert ([page] + pages)[1..] == pages;
  }

  /** Every page but the last has fifty items, so the pages begin at the multiples of fifty. */
  lemma {:induction false} PagesAreFull<T>(items: seq<T>, query: string, start: nat, k: nat)
    requires ':' !in query && start <= |items| <= MAX_INT
    requires k < |Pages(items, query, start)|
    ensures start + PAGE_SIZE * k <= |items|
    ensures Pages(items, query, start)[k] == PageAt(items, query, start + PAGE_SIZE * k).items
    decreases k
  {
    hide PageStart, Encode;
    NextPage(items, query, start);
    if k > 0 {
      PagesAreFull(items, query, start + PAGE_SIZE, k - 1);
    }
  }

  /**
   * From any page reached by going on from the first, going back returns to the start of the one
   * before it.
   */
  lemma BackAndForth<T>(items: seq<T>, query: string, k: nat)
    requires ':' !in query && |items| <= MAX_INT && 0 < k < |Pages(items, query, 0)|
    ensures PAGE_SIZE * k <= |items|
    ensures var back := PageAt(items, query, PAGE_SIZE * k).endingBefore;
            && back != ""
            && PageStart("", back, query, |items|) == At(PAGE_SIZE * (k - 1))
            && Pages(items, query, 0)[k - 1] == items[PAGE_SIZE * (k - 1)..PAGE_SIZE * k]
  {
    hide PageStart, Encode, Pages;
    PagesAreFull(items, query, 0, k);
    PagesAreFull(items, query, 0, k - 1);
    PreviousPage(items, query, PAGE_SIZE * k);
    EncodedNotEmpty(query, PAGE_SIZE * k);
  }
}
