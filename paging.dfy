/** The offset-driven page loop of the Airtable list endpoint, written twice in the
    source (src/search.js `loadDirectory`, src/manager.js `loadData`): request a page,
    append its records, and request again with the returned offset while it is
    truthy. */
module Paging {
  import opened Wrappers

  /** One page of a list response: its records and the continuation offset. */
  datatype Page<T> = Page(records: seq<T>, offset: Option<string>)

  /** `while (offset)`: a missing or empty offset ends the loop. */
  predicate HasNext<T>(p: Page<T>) {
    p.offset.Some? && p.offset.value != ""
  }

  predicate Terminates<T>(pages: seq<Page<T>>) {
    exists k :: 0 <= k < |pages| && !HasNext(pages[k])
  }

  /** Index of the first page that has no continuation offset. */
  function LastPage<T>(pages: seq<Page<T>>): (k: nat)
    requires Terminates(pages)
    ensures k < |pages| && !HasNext(pages[k])
    ensures forall i :: 0 <= i < k ==> HasNext(pages[i])
  {
    if !HasNext(pages[0]) then 0
    else
      assert Terminates(pages[1..]) by {
        var k :| 0 <= k < |pages| && !HasNext(pages[k]);
        assert k > 0 && !HasNext(pages[1..][k - 1]);
      }
      1 + LastPage(pages[1..])
  }

  /** The records of the given pages, page after page. */
  function Concat<T>(pages: seq<Page<T>>): seq<T>
  {
    if pages == [] then [] else Concat(pages[..|pages| - 1]) + pages[|pages| - 1].records
  }

  lemma {:induction false} ConcatAppend<T>(a: seq<Page<T>>, b: seq<Page<T>>)
    ensures Concat(a + b) == Concat(a) + Concat(b)
  {
    if b == [] {
      assert a + b == a;
    } else {
      var b' := b[..|b| - 1];
      assert (a + b)[..|a + b| - 1] == a + b';
      assert (a + b)[|a + b| - 1] == b[|b| - 1];
      ConcatAppend(a, b');
      assert Concat(b) == Concat(b') + b[|b| - 1].records;
    }
  }

  /** The records a full load collects, given the pages the store hands out to the
      successive requests. */
  function Loaded<T>(pages: seq<Page<T>>): seq<T>
    requires Terminates(pages)
  {
    Concat(pages[..LastPage(pages) + 1])
  }

  /** The do-while loop. `sent[i]` is the offset the i-th request carries (none on the
      first). `pages[i]` is the store's answer to the i-th request. */
  method FetchAll<T>(pages: seq<Page<T>>) returns (all: seq<T>, sent: seq<Option<string>>)
    requires Terminates(pages)
    ensures all == Loaded(pages)
    ensures |sent| == LastPage(pages) + 1
    ensures sent[0] == None
    ensures forall i :: 1 <= i < |sent| ==> sent[i] == pages[i - 1].offset && HasNext(pages[i - 1])
  {
    var last := LastPage(pages);
    all := [];
    var offset: Option<string> := None;
    sent := [];
    var i := 0;
    while true
      invariant 0 <= i <= last
      invariant all == Concat(pages[..i])
      invariant |sent| == i
      invariant i == 0 ==> offset == None
      invariant i > 0 ==> offset == pages[i - 1].offset && HasNext(pages[i - 1])
      invariant i > 0 ==> sent[0] == None
      invariant forall j :: 1 <= j < i ==> sent[j] == pages[j - 1].offset && HasNext(pages[j - 1])
      decreases last - i
    {
      sent := sent + [if offset.Some? && offset.value != "" then offset else None];
      var res := pages[i];
      assert pages[..i + 1][..i] == pages[..i];
      all := all + res.records;
      offset := res.offset;
      if !(offset.Some? && offset.value != "") {
        assert i == last;
        return;
      }
      i := i + 1;
    }
  }
}
