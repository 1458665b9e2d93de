/**
 * The interactive-element inventory of a captured page: each element's
 * whitespace-collapsed text and the CSS selector derived from its attributes.
 */
module Elements {
  import opened Common
  import opened JsText

  /** What the page reports for one `a`, `button`, non-hidden `input`,
      `select` or `textarea` element. `tagName` is as the DOM gives it
      (upper case for HTML elements). */
  datatype RawElement = RawElement(
    tagName: string,
    textContent: string,
    id: string,
    name: Option<string>,
    className: string,
    typeAttr: Option<string>,
    href: Option<string>,
    value: Option<string>,
    placeholder: Option<string>,
    ariaLabel: Option<string>)

  /** The inventory entry the handler builds for one element. */
  datatype InteractiveElement = InteractiveElement(
    tagName: string,
    textContent: string,
    id: string,
    name: Option<string>,
    className: string,
    typeAttr: Option<string>,
    href: Option<string>,
    value: Option<string>,
    placeholder: Option<string>,
    ariaLabel: Option<string>,
    selector: string)

  /** The one attribute a selector may narrow the tag by. */
  datatype Qualifier =
    | Bare
    | ById(id: string)
    | ByClass(token: string)
    | ByName(name: string)
    | ByType(typeName: string)
    | ByAriaLabel(labelText: string)
    | ByPlaceholder(text: string)

  /** The first space-separated token of a class list (`split(' ')[0]`). */
  function FirstClassToken(className: string): string {
    PrefixBefore(className, {' '})
  }

  /** The if-else chain of the capture script: the first attribute that is
      present and non-empty, in the order id, class, name, type, aria-label,
      placeholder. */
  function ChooseQualifier(e: RawElement): Qualifier {
    if e.id != "" then ById(e.id)
    else if e.className != "" then ByClass(FirstClassToken(e.className))
    else if Given(e.name) then ByName(e.name.value)
    else if Given(e.typeAttr) then ByType(e.typeAttr.value)
    else if Given(e.ariaLabel) then ByAriaLabel(e.ariaLabel.value)
    else if Given(e.placeholder) then ByPlaceholder(e.placeholder.value)
    else Bare
  }

  /** The same priority stated as a ranked list of candidates: every present
      attribute, highest priority first. */
  function Candidates(e: RawElement): seq<Qualifier> {
    (if e.id != "" then [ById(e.id)] else [])
    + (if e.className != "" then [ByClass(FirstClassToken(e.className))] else [])
    + (if Given(e.name) then [ByName(e.name.value)] else [])
    + (if Given(e.typeAttr) then [ByType(e.typeAttr.value)] else [])
    + (if Given(e.ariaLabel) then [ByAriaLabel(e.ariaLabel.value)] else [])
    + (if Given(e.placeholder) then [ByPlaceholder(e.placeholder.value)] else [])
  }

  /** The chain picks the highest-ranked present attribute, and the bare tag
      exactly when no attribute is present. */
  lemma ChooseQualifierIsTopCandidate(e: RawElement)
    ensures ChooseQualifier(e) == if Candidates(e) == [] then Bare else Candidates(e)[0]
    ensures ChooseQualifier(e).Bare? <==> Candidates(e) == []
  {
  }

  const NameOpen := "[name=\""
  const TypeOpen := "[type=\""
  const AriaOpen := "[aria-label=\""
  const PlaceholderOpen := "[placeholder=\""
  const Close := "\"]"

  /** The text a qualifier appends to the tag name. */
  function Render(q: Qualifier): string {
    match q
    case Bare => ""
    case ById(id) => "#" + id
    case ByClass(token) => "." + token
    case ByName(v) => NameOpen + v + Close
    case ByType(v) => TypeOpen + v + Close
    case ByAriaLabel(v) => AriaOpen + v + Close
    case ByPlaceholder(v) => PlaceholderOpen + v + Close
  }

  /** `open + v + close` read back as `v`. */
  function Unwrap(s: string, open: string): Option<string> {
    if |s| >= |open| + |Close| && s[..|open|] == open && s[|s| - |Close|..] == Close
    then Some(s[|open|..|s| - |Close|])
    else None
  }

  /** Reads a qualifier back from the text after the tag name. */
  function ParseQualifier(s: string): Option<Qualifier> {
    if s == [] then Some(Bare)
    else if s[0] == '#' then Some(ById(s[1..]))
    else if s[0] == '.' then Some(ByClass(s[1..]))
    else if Unwrap(s, NameOpen).Some? then Some(ByName(Unwrap(s, NameOpen).value))
    else if Unwrap(s, TypeOpen).Some? then Some(ByType(Unwrap(s, TypeOpen).value))
    else if Unwrap(s, AriaOpen).Some? then Some(ByAriaLabel(Unwrap(s, AriaOpen).value))
    else if Unwrap(s, PlaceholderOpen).Some? then Some(ByPlaceholder(Unwrap(s, PlaceholderOpen).value))
    else None
  }

  lemma UnwrapWrapped(open: string, v: string)
    ensures Unwrap(open + v + Close, open) == Some(v)
  {
    var s := open + v + Close;
    assert s[..|open|] == open;
    assert s[|s| - |Close|..] == Close;
    assert s[|open|..|s| - |Close|] == v;
  }

  /** An attribute value never makes a qualifier read back as another kind:
      every qualifier renders to text from which it is recovered exactly. */
  lemma ParseRender(q: Qualifier)
    ensures ParseQualifier(Render(q)) == Some(q)
  {
    match q
    case Bare =>
    case ById(id) =>
      assert ("#" + id)[1..] == id;
    case ByClass(token) =>
      assert ("." + token)[1..] == token;
    case ByName(v) =>
      UnwrapWrapped(NameOpen, v);
    case ByType(v) =>
      UnwrapWrapped(TypeOpen, v);
      assert Render(q)[..|NameOpen|] != NameOpen by { assert Render(q)[1] != NameOpen[1]; }
    case ByAriaLabel(v) =>
      UnwrapWrapped(AriaOpen, v);
      assert Render(q)[..|NameOpen|] != NameOpen by { assert Render(q)[1] != NameOpen[1]; }
      assert Render(q)[..|TypeOpen|] != TypeOpen by { assert Render(q)[1] != TypeOpen[1]; }
    case ByPlaceholder(v) =>
      UnwrapWrapped(PlaceholderOpen, v);
      assert Render(q)[..|NameOpen|] != NameOpen by { assert Render(q)[1] != NameOpen[1]; }
      assert Render(q)[..|TypeOpen|] != TypeOpen by { assert Render(q)[1] != TypeOpen[1]; }
      assert Render(q)[..|AriaOpen|] != AriaOpen by { assert Render(q)[1] != AriaOpen[1]; }
  }

  /** The derived selector: the lower-cased tag name followed by the rendering
      of one qualifier, which can be read back from it. */
  function Selector(e: RawElement): (r: string)
    ensures |r| >= |e.tagName| && r[..|e.tagName|] == Lower(e.tagName)
    ensures ParseQualifier(r[|e.tagName|..]) == Some(ChooseQualifier(e))
  {
    var q := ChooseQualifier(e);
    ParseRender(q);
    var r := Lower(e.tagName) + Render(q);
    assert r[|e.tagName|..] == Render(q);
    r
  }

  /** `textContent.trim().replace(/\s+/g, ' ')`. */
  function CollapseText(t: string): (r: string)
    ensures NoEdgeSpace(r)
    ensures NoDoubleSpace(r)
    ensures OnlyPlainSpaces(r)
    ensures NonSpace(r) == NonSpace(t)
  {
    var trimmed := Trim(t);
    TrimKeepsNonSpace(t);
    CollapseRunsKeepsNonSpace(trimmed);
    CollapseRuns(trimmed)
  }

  /** Words of the element text stay apart: a run of white space between
      two words becomes exactly one plain space, and the text on either
      side collapses on its own. */
  lemma CollapseTextSeparates(a: string, w: string, b: string)
    requires a != [] && !IsSpace(a[|a| - 1])
    requires w != [] && AllSpace(w)
    requires b != [] && !IsSpace(b[0])
    ensures CollapseText(a + w + b) == CollapseText(a) + " " + CollapseText(b)
  {
    TrimSeparates(a, w, b);
    CollapseRunsSeparates(Trim(a), w, Trim(b));
  }

  /** Collapsing the text of an already collapsed text changes nothing. */
  lemma CollapseTextIdempotent(t: string)
    ensures CollapseText(CollapseText(t)) == CollapseText(t)
  {
    var r := CollapseText(t);
    TrimFixesClean(r);
    CollapseRunsFixes(r);
  }

  /** One inventory entry: the attributes as read, the collapsed text and the
      derived selector. */
  function Describe(e: RawElement): (d: InteractiveElement)
    ensures d.tagName == Lower(e.tagName) && d.selector == Selector(e)
    ensures d.textContent == CollapseText(e.textContent)
    ensures NoEdgeSpace(d.textContent) && NoDoubleSpace(d.textContent)
    ensures NonSpace(d.textContent) == NonSpace(e.textContent)
    ensures d.id == e.id && d.name == e.name && d.className == e.className
    ensures d.typeAttr == e.typeAttr && d.href == e.href && d.value == e.value
    ensures d.placeholder == e.placeholder && d.ariaLabel == e.ariaLabel
  {
    InteractiveElement(
      Lower(e.tagName), CollapseText(e.textContent), e.id, e.name, e.className,
      e.typeAttr, e.href, e.value, e.placeholder, e.ariaLabel, Selector(e))
  }

  /** The inventory of a page, in document order. */
  function DescribeAll(raw: seq<RawElement>): (r: seq<InteractiveElement>)
    ensures |r| == |raw|
    ensures forall i :: 0 <= i < |raw| ==> r[i] == Describe(raw[i])
  {
    seq(|raw|, i requires 0 <= i < |raw| => Describe(raw[i]))
  }
}
