/**
 * The PDF preview's page counter: the current page and the renderer's page
 * count, moved by the Previous and Next buttons, and the label between
 * them.
 */
module PdfPager {
  import opened Text

  datatype Pager = Pager(pageCount: int, currentPage: int)

  /** The preview as it opens: page 0, with the page count the renderer reports. */
  function Open(pageCount: nat): (r: Pager)
    ensures Valid(r) && r.currentPage == 0 && r.pageCount == pageCount
  {
    Pager(pageCount, 0)
  }

  /** The page stays between 0 and the last page (0 for a document without pages). */
  predicate Valid(p: Pager)
  {
    p.pageCount >= 0 && 0 <= p.currentPage <= (if p.pageCount > 0 then p.pageCount - 1 else 0)
  }

  predicate PreviousEnabled(p: Pager)
  {
    p.currentPage > 0
  }

  predicate NextEnabled(p: Pager)
  {
    p.currentPage < p.pageCount - 1
  }

  /** Previous: one page back while above page 0. */
  function Previous(p: Pager): (r: Pager)
    ensures Valid(p) ==> Valid(r)
    ensures r.pageCount == p.pageCount
    ensures PreviousEnabled(p) ==> r.currentPage == p.currentPage - 1
    ensures !PreviousEnabled(p) ==> r == p
  {
    if p.currentPage > 0 then p.(currentPage := p.currentPage - 1) else p
  }

  /** Next: one page on while below the last page. */
  function Next(p: Pager): (r: Pager)
    ensures Valid(p) ==> Valid(r)
    ensures r.pageCount == p.pageCount
    ensures NextEnabled(p) ==> r.currentPage == p.currentPage + 1
    ensures !NextEnabled(p) ==> r == p
  {
    if p.currentPage < p.pageCount - 1 then p.(currentPage := p.currentPage + 1) else p
  }

  /** Each button undoes the other whenever the first one moved. */
  lemma PreviousNextInverse(p: Pager)
    requires Valid(p)
    ensures NextEnabled(p) ==> Previous(Next(p)) == p
    ensures PreviousEnabled(p) ==> Next(Previous(p)) == p
  {
  }

  datatype Button = PreviousButton | NextButton

  function Press(p: Pager, b: Button): Pager
  {
    match b
    case PreviousButton => Previous(p)
    case NextButton => Next(p)
  }

  function PressAll(p: Pager, buttons: seq<Button>): Pager
    decreases |buttons|
  {
    if |buttons| == 0 then p else PressAll(Press(p, buttons[0]), buttons[1..])
  }

  /** Starting from the opened preview, no sequence of presses leaves the page range. */
  lemma {:induction false} PressesKeepValid(p: Pager, buttons: seq<Button>)
    requires Valid(p)
    ensures Valid(PressAll(p, buttons)) && PressAll(p, buttons).pageCount == p.pageCount
    decreases |buttons|
  {
    if |buttons| > 0 {
      PressesKeepValid(Press(p, buttons[0]), buttons[1..]);
    }
  }

  /** `n` presses of Next from a valid page reach `min(page + n, last page)`. */
  lemma {:induction false} NextPressesSaturate(p: Pager, n: nat)
    requires Valid(p)
    ensures var last := if p.pageCount > 0 then p.pageCount - 1 else 0;
            PressAll(p, seq(n, _ => NextButton)).currentPage ==
              if p.currentPage + n <= last then p.currentPage + n else last
    decreases n
  {
    if n > 0 {
      var rest := seq(n - 1, _ => NextButton);
      assert seq(n, _ => NextButton) == [NextButton] + rest;
      assert seq(n, _ => NextButton)[1..] == rest;
      NextPressesSaturate(Next(p), n - 1);
    }
  }

  /** The label "Page <current + 1> of <count>". */
  function Label(p: Pager): string
  {
    "Page " + (IntToString(p.currentPage + 1) + (" of " + IntToString(p.pageCount)))
  }

  lemma MiddleDetermined(pre: string, a: string, b: string, tail: string)
    requires pre + (a + tail) == pre + (b + tail)
    ensures a == b
  {
    assert a + tail == (pre + (a + tail))[|pre|..];
    assert b + tail == (pre + (b + tail))[|pre|..];
    assert a == (a + tail)[..|a|];
    assert b == (b + tail)[..|b|];
  }

  /** Two pages of the same document never show the same label. */
  lemma LabelDistinguishesPages(p: Pager, q: Pager)
    requires p.pageCount == q.pageCount && Label(p) == Label(q)
    ensures p.currentPage == q.currentPage
  {
    var tail := " of " + IntToString(p.pageCount);
    MiddleDetermined("Page ", IntToString(p.currentPage + 1), IntToString(q.currentPage + 1), tail);
    IntToStringInjective(p.currentPage + 1, q.currentPage + 1);
  }
}
