/**
 * The headless browser as the step controller sees it. A page's observable
 * content is a function of the operations that have succeeded on it so far;
 * whether any one operation succeeds is decided by the browser, modelled as
 * a nondeterministic choice.
 */
module Browser {
  import opened Common
  import opened Elements

  /** A page operation: `goto`, `click` or `fill`. */
  datatype Op = Goto(url: string) | Click(selector: string) | Fill(selector: string, text: string)

  /** What the browser shows: the current URL, the serialised DOM, the
      base64 screenshot and the interactive elements in document order. */
  datatype RawPage = RawPage(url: string, html: string, screenshot: string, elements: seq<RawElement>)

  /** The `PageState` record handed to the planner and to the client. */
  datatype PageState = PageState(html: string, screenshot: string, interactiveElements: seq<InteractiveElement>)

  /** The state the forced-finish path starts from and keeps when the
      browser fails. */
  const EmptyState := PageState("", "", [])

  /** The state captured from a page showing `p`. */
  function Snapshot(p: RawPage): (s: PageState)
    ensures s.html == p.html && s.screenshot == p.screenshot
    ensures |s.interactiveElements| == |p.elements|
    ensures forall i :: 0 <= i < |p.elements| ==> s.interactiveElements[i] == Describe(p.elements[i])
  {
    PageState(p.html, p.screenshot, DescribeAll(p.elements))
  }

  class Page {
    /** The site: what the page shows after a given sequence of successful operations. */
    const site: seq<Op> -> RawPage
    /** The operations that have succeeded on this page, oldest first. */
    var trace: seq<Op>

    constructor (site: seq<Op> -> RawPage)
      ensures this.site == site && trace == []
    {
      this.site := site;
      trace := [];
    }

    /** `page.url()`, which does not fail. */
    function Url(): string
      reads this
    {
      site(trace).url
    }

    /** `goto`, `click` or `fill`: either it succeeds and the page moves on,
        or it throws and the page is left as it was. */
    method Perform(op: Op) returns (o: Outcome)
      modifies this
      ensures o.Done? ==> trace == old(trace) + [op]
      ensures o.Threw? ==> trace == old(trace)
    {
      var ok: bool :| true;
      if ok {
        trace := trace + [op];
        o := Done;
      } else {
        var m: string :| true;
        o := Threw(m);
      }
    }

    /** `page.content()`. */
    method Content() returns (r: Result<string>)
      ensures r.Ok? ==> r.value == site(trace).html
    {
      var ok: bool :| true;
      if ok {
        r := Ok(site(trace).html);
      } else {
        var m: string :| true;
        r := Err(m);
      }
    }

    /** `page.screenshot()`, already encoded. */
    method Screenshot() returns (r: Result<string>)
      ensures r.Ok? ==> r.value == site(trace).screenshot
    {
      var ok: bool :| true;
      if ok {
        r := Ok(site(trace).screenshot);
      } else {
        var m: string :| true;
        r := Err(m);
      }
    }

    /** The in-page query for interactive elements, before each is described. */
    method QueryElements() returns (r: Result<seq<RawElement>>)
      ensures r.Ok? ==> r.value == site(trace).elements
    {
      var ok: bool :| true;
      if ok {
        r := Ok(site(trace).elements);
      } else {
        var m: string :| true;
        r := Err(m);
      }
    }
  }

  /** `chromium.launch`, `newContext` and `newPage`: a fresh blank page, or
      the error of whichever of them threw. */
  method Launch(site: seq<Op> -> RawPage) returns (r: Result<Page>)
    ensures r.Ok? ==> fresh(r.value) && r.value.site == site && r.value.trace == []
  {
    var ok: bool :| true;
    if ok {
      var p := new Page(site);
      r := Ok(p);
    } else {
      var m: string :| true;
      r := Err(m);
    }
  }

  /** `getPageState`: content, screenshot and the described elements of what
      the page currently shows, or the error of the first step that threw. */
  method GetPageState(p: Page) returns (r: Result<PageState>)
    ensures r.Ok? ==> r.value == Snapshot(p.site(p.trace))
  {
    var html := p.Content();
    if html.Err? {
      return Err(html.message);
    }
    var shot := p.Screenshot();
    if shot.Err? {
      return Err(shot.message);
    }
    var raw := p.QueryElements();
    if raw.Err? {
      return Err(raw.message);
    }
    r := Ok(PageState(html.value, shot.value, DescribeAll(raw.value)));
  }
}
