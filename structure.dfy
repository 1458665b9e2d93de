/**
 * The structured part of a page summary: one line per heading, per link and
 * button with text, per form field and per image with an `alt` or `src`,
 * built section by section.
 */
module Structure {
  import opened Common
  import opened JsText

  /** A heading element: its tag name as the DOM library reports it, and its text. */
  datatype Heading = Heading(tagName: string, text: string)
  /** An `a` element: its `href` attribute and text. */
  datatype Link = Link(href: Option<string>, text: string)
  /** An `input`, `textarea` or `select` element. `forLabel` is the text of
      the `label` whose `for` names the element's id, `prevLabel` that of a
      `label` directly before it (empty when there is none). */
  datatype Field = Field(
    tagName: string,
    typeAttr: Option<string>,
    name: Option<string>,
    placeholder: Option<string>,
    forLabel: string,
    prevLabel: string)
  /** An `img` element: its `alt` and `src` attributes. */
  datatype Image = Image(alt: Option<string>, src: Option<string>)

  /** The loaded document, after the script, style, noscript, link, meta
      and head elements are removed: the text of `body` and the elements of
      each kind in document order. */
  datatype Document = Document(
    bodyText: string,
    headings: seq<Heading>,
    links: seq<Link>,
    buttons: seq<string>,
    fields: seq<Field>,
    images: seq<Image>)

  /** A line's text, or nothing. */
  function Emit(line: Option<string>): string {
    if line.Some? then line.value else ""
  }

  /** Ends with a line feed. */
  predicate EndsLine(s: string) {
    s != [] && s[|s| - 1] == '\n'
  }

  /** A heading line, written for every heading; its text is trimmed. */
  function HeadingLine(h: Heading): (line: string)
    ensures EndsLine(line)
    ensures |line| > |"Heading " + h.tagName + ": "|
    ensures line[..|"Heading " + h.tagName + ": "|] == "Heading " + h.tagName + ": "
    ensures line[|"Heading " + h.tagName + ": "|..|line| - 1] == Trim(h.text)
    ensures NoEdgeSpace(line[|"Heading " + h.tagName + ": "|..|line| - 1])
  {
    var head := "Heading " + h.tagName + ": ";
    var text := Trim(h.text);
    var line := head + text + "\n";
    assert line[..|head|] == head;
    assert line[|head|..|line| - 1] == text;
    line
  }

  /** A link line, present only when the link has an `href` and non-blank text. */
  function LinkLine(l: Link): (line: Option<string>)
    ensures line.Some? <==> Given(l.href) && Trim(l.text) != ""
    ensures line.Some? ==> EndsLine(line.value)
  {
    var text := Trim(l.text);
    if Given(l.href) && text != "" then Some("Link: \"" + text + "\" (URL: " + l.href.value + ")\n")
    else None
  }

  /** A button line, present only when the button's text is not blank. */
  function ButtonLine(text: string): (line: Option<string>)
    ensures line.Some? <==> Trim(text) != ""
    ensures line.Some? ==> EndsLine(line.value)
  {
    var t := Trim(text);
    if t != "" then Some("Button: \"" + t + "\"\n") else None
  }

  /** An image line: the `alt` form when `alt` is given, else the no-alt form
      when `src` is given, else nothing. An absent `src` renders `undefined`. */
  function ImageLine(img: Image): (line: Option<string>)
    ensures line.Some? <==> Given(img.alt) || Given(img.src)
    ensures Given(img.alt) ==> line == Some("Image (Alt: \"" + img.alt.value + "\", Src: " + Show(img.src) + ")\n")
    ensures !Given(img.alt) && Given(img.src) ==> line == Some("Image (Src: " + img.src.value + ", No Alt Text)\n")
  {
    if Given(img.alt) then Some("Image (Alt: \"" + img.alt.value + "\", Src: " + Show(img.src) + ")\n")
    else if Given(img.src) then Some("Image (Src: " + img.src.value + ", No Alt Text)\n")
    else None
  }

  /** The field's type: its `type` attribute, else its lower-cased tag name. */
  function FieldType(f: Field): string {
    if Given(f.typeAttr) then f.typeAttr.value else Lower(f.tagName)
  }

  /** The field's label: the trimmed text of the `for` label, else that of
      the preceding label. */
  function FieldLabel(f: Field): (text: string)
    ensures NoEdgeSpace(text)
    ensures Trim(f.forLabel) != "" ==> text == Trim(f.forLabel)
    ensures Trim(f.forLabel) == "" ==> text == Trim(f.prevLabel)
    ensures text == "" <==> Trim(f.forLabel) == "" && Trim(f.prevLabel) == ""
  {
    if Trim(f.forLabel) != "" then Trim(f.forLabel) else Trim(f.prevLabel)
  }

  /** One optional detail of a field line: its text between the markup
      written before and after it. */
  datatype Detail = Detail(open: string, text: string, close: string)

  const NameOpen := ", Name: "
  const LabelOpen := ", Label: \""
  const PlaceholderOpen := ", Placeholder: \""
  const Quote := "\""

  /** The details a field can carry, in the order they are written. An
      absent name or placeholder has empty text. */
  function Details(f: Field): seq<Detail> {
    [ Detail(NameOpen, if f.name.Some? then f.name.value else "", ""),
      Detail(LabelOpen, FieldLabel(f), Quote),
      Detail(PlaceholderOpen, if f.placeholder.Some? then f.placeholder.value else "", Quote) ]
  }

  /** What a detail adds to the line: its markup around its text when the
      text is not empty, else nothing. */
  function Piece(d: Detail): string {
    if d.text != "" then d.open + d.text + d.close else ""
  }

  /** The details from index `i` on, each written when present, in order. */
  function Rendered(ds: seq<Detail>, i: nat): string
    decreases |ds| - i
  {
    if i >= |ds| then "" else Piece(ds[i]) + Rendered(ds, i + 1)
  }

  function FieldHead(f: Field): string {
    "Input Field (Type: " + FieldType(f) + ")"
  }

  /** A field line: the type, then every present detail in order. */
  function FieldLine(f: Field): string {
    FieldHead(f) + Rendered(Details(f), 0) + "\n"
  }

  lemma AppendNothing(a: string)
    ensures a + "" == a
  {
  }

  lemma Assoc4(a: string, b: string, c: string, d: string)
    ensures a + (b + c + d) == a + b + c + d
  {
  }

  /** The rendered details are the three pieces in order. */
  lemma RenderedPieces(ds: seq<Detail>)
    requires |ds| == 3
    ensures Rendered(ds, 0) == Piece(ds[0]) + Piece(ds[1]) + Piece(ds[2])
  {
    assert Rendered(ds, 3) == "";
    AppendNothing(Piece(ds[2]));
    assert Rendered(ds, 2) == Piece(ds[2]);
    assert Rendered(ds, 1) == Piece(ds[1]) + Piece(ds[2]);
  }

  /** The pieces of a field line in the handler's own terms: the name when
      given, the label when not blank, the placeholder when given. */
  lemma PieceValues(f: Field)
    ensures Piece(Details(f)[0]) == if Given(f.name) then NameOpen + f.name.value else ""
    ensures Piece(Details(f)[1]) == if FieldLabel(f) != "" then LabelOpen + FieldLabel(f) + Quote else ""
    ensures Piece(Details(f)[2]) == if Given(f.placeholder) then PlaceholderOpen + f.placeholder.value + Quote else ""
  {
    if Given(f.name) {
      AppendNothing(NameOpen + f.name.value);
    }
  }

  /** Only an empty middle leaves the ends joined as they are. */
  lemma MiddleEmpty(a: string, m: string, b: string)
    ensures a + m + b == a + b <==> m == ""
  {
    if a + m + b == a + b {
      assert |a + m + b| == |a + b|;
    }
  }

  /** The rendered details are empty exactly when every detail's text is. */
  lemma RenderedEmpty(ds: seq<Detail>)
    requires |ds| == 3
    ensures Rendered(ds, 0) == "" <==> ds[0].text == "" && ds[1].text == "" && ds[2].text == ""
  {
    RenderedPieces(ds);
    var r := Rendered(ds, 0);
    assert |r| == |Piece(ds[0])| + |Piece(ds[1])| + |Piece(ds[2])|;
  }

  /** A field line is the bare type line exactly when the field has no name,
      no label and no placeholder. */
  lemma FieldLineBare(f: Field)
    ensures FieldLine(f) == FieldHead(f) + "\n" <==>
      !Given(f.name) && FieldLabel(f) == "" && !Given(f.placeholder)
  {
    var ds := Details(f);
    RenderedEmpty(ds);
    MiddleEmpty(FieldHead(f), Rendered(ds, 0), "\n");
  }

  /** The field line built as the handler builds it: start from the type and
      append each detail that is present. */
  method FieldInfo(f: Field) returns (line: string)
    ensures line == FieldLine(f)
  {
    var fieldType := if Given(f.typeAttr) then f.typeAttr.value else Lower(f.tagName);
    var labelText := if Trim(f.forLabel) != "" then Trim(f.forLabel) else Trim(f.prevLabel);
    var info := "Input Field (Type: " + fieldType + ")";
    ghost var head := FieldHead(f);
    ghost var ds := Details(f);
    ghost var p0, p1, p2 := Piece(ds[0]), Piece(ds[1]), Piece(ds[2]);
    PieceValues(f);
    assert labelText == FieldLabel(f);
    assert info == head;
    if Given(f.name) {
      info := info + (NameOpen + f.name.value);
    } else {
      AppendNothing(info);
    }
    assert info == head + p0;
    if labelText != "" {
      info := info + (LabelOpen + labelText + Quote);
    } else {
      AppendNothing(info);
    }
    assert info == head + p0 + p1;
    if Given(f.placeholder) {
      info := info + (PlaceholderOpen + f.placeholder.value + Quote);
    } else {
      AppendNothing(info);
    }
    assert info == head + p0 + p1 + p2;
    RenderedPieces(ds);
    Assoc4(head, p0, p1, p2);
    line := info + "\n";
  }

  /** The lines of a section: each element's line, or nothing, in document
      order. Defined from the back, as the handler appends. */
  function Section<T>(xs: seq<T>, line: T -> Option<string>): string {
    if xs == [] then "" else Section(xs[..|xs| - 1], line) + Emit(line(xs[|xs| - 1]))
  }

  /** The section of a concatenation is the concatenation of the sections:
      lines are written in element order, one element at a time. */
  lemma {:induction false} SectionAppend<T>(xs: seq<T>, ys: seq<T>, line: T -> Option<string>)
    ensures Section(xs + ys, line) == Section(xs, line) + Section(ys, line)
    decreases |ys|
  {
    if ys == [] {
      assert xs + ys == xs;
    } else {
      var zs := ys[..|ys| - 1];
      var w := xs + ys;
      assert w[..|w| - 1] == xs + zs;
      assert w[|w| - 1] == ys[|ys| - 1];
      SectionAppend(xs, zs, line);
      var a, b, c := Section(xs, line), Section(zs, line), Emit(line(ys[|ys| - 1]));
      assert Section(w, line) == a + b + c;
      assert Section(ys, line) == b + c;
    }
  }

  /** A section is empty exactly when no element has a line or every line is empty. */
  lemma {:induction false} SectionEmpty<T>(xs: seq<T>, line: T -> Option<string>)
    ensures Section(xs, line) == "" <==> forall i :: 0 <= i < |xs| ==> Emit(line(xs[i])) == ""
    decreases |xs|
  {
    if xs != [] {
      var ys := xs[..|xs| - 1];
      SectionEmpty(ys, line);
      assert forall i :: 0 <= i < |ys| ==> ys[i] == xs[i];
    }
  }

  /** A non-empty section ends with a line feed when every line does. */
  lemma {:induction false} SectionEndsLine<T>(xs: seq<T>, line: T -> Option<string>)
    requires forall i :: 0 <= i < |xs| && line(xs[i]).Some? ==> EndsLine(line(xs[i]).value)
    ensures Section(xs, line) != "" ==> EndsLine(Section(xs, line))
    decreases |xs|
  {
    if xs != [] {
      var ys := xs[..|xs| - 1];
      assert forall i :: 0 <= i < |ys| ==> ys[i] == xs[i];
      SectionEndsLine(ys, line);
    }
  }

  function HeadingItem(h: Heading): Option<string> {
    Some(HeadingLine(h))
  }

  function FieldItem(f: Field): Option<string> {
    Some(FieldLine(f))
  }

  /** The structured content: headings, links, buttons, form fields and images. */
  function Sections(doc: Document): string {
    Section(doc.headings, HeadingItem)
    + Section(doc.links, LinkLine)
    + Section(doc.buttons, ButtonLine)
    + Section(doc.fields, FieldItem)
    + Section(doc.images, ImageLine)
  }

  lemma FieldLineEnds(f: Field)
    ensures EndsLine(FieldLine(f))
  {
  }

  /** Every heading and every field writes a line. */
  lemma HeadingsSilent(hs: seq<Heading>)
    ensures Section(hs, HeadingItem) == "" <==> hs == []
  {
    SectionEmpty(hs, HeadingItem);
    if hs != [] {
      assert Emit(HeadingItem(hs[0])) != "";
    }
  }

  lemma FieldsSilent(fs: seq<Field>)
    ensures Section(fs, FieldItem) == "" <==> fs == []
  {
    SectionEmpty(fs, FieldItem);
    if fs != [] {
      FieldLineEnds(fs[0]);
      assert Emit(FieldItem(fs[0])) != "";
    }
  }

  lemma LinksSilent(ls: seq<Link>)
    ensures Section(ls, LinkLine) == "" <==>
      forall i :: 0 <= i < |ls| ==> !(Given(ls[i].href) && Trim(ls[i].text) != "")
  {
    SectionEmpty(ls, LinkLine);
  }

  lemma ButtonsSilent(bs: seq<string>)
    ensures Section(bs, ButtonLine) == "" <==> forall i :: 0 <= i < |bs| ==> Trim(bs[i]) == ""
  {
    SectionEmpty(bs, ButtonLine);
  }

  lemma ImagesSilent(ims: seq<Image>)
    ensures Section(ims, ImageLine) == "" <==>
      forall i :: 0 <= i < |ims| ==> !Given(ims[i].alt) && !Given(ims[i].src)
  {
    SectionEmpty(ims, ImageLine);
  }

  /** The structured content is empty exactly when the page has no heading,
      no form field, no link with an `href` and text, no button with text and
      no image with an `alt` or `src`. */
  lemma StructureEmpty(doc: Document)
    ensures Sections(doc) == "" <==>
      && doc.headings == [] && doc.fields == []
      && (forall i :: 0 <= i < |doc.links| ==> !(Given(doc.links[i].href) && Trim(doc.links[i].text) != ""))
      && (forall i :: 0 <= i < |doc.buttons| ==> Trim(doc.buttons[i]) == "")
      && (forall i :: 0 <= i < |doc.images| ==> !Given(doc.images[i].alt) && !Given(doc.images[i].src))
  {
    HeadingsSilent(doc.headings);
    LinksSilent(doc.links);
    ButtonsSilent(doc.buttons);
    FieldsSilent(doc.fields);
    ImagesSilent(doc.images);
    var h := Section(doc.headings, HeadingItem);
    var l := Section(doc.links, LinkLine);
    var b := Section(doc.buttons, ButtonLine);
    var f := Section(doc.fields, FieldItem);
    var m := Section(doc.images, ImageLine);
    assert |Sections(doc)| == |h| + |l| + |b| + |f| + |m|;
  }

  lemma ConcatEndsLine(a: string, b: string)
    requires a != "" ==> EndsLine(a)
    requires b != "" ==> EndsLine(b)
    ensures a + b != "" ==> EndsLine(a + b)
  {
    if b == "" {
      assert a + b == a;
    }
  }

  /** Non-empty structured content is made of whole lines. */
  lemma StructureEndsLine(doc: Document)
    ensures Sections(doc) != "" ==> EndsLine(Sections(doc))
  {
    forall f | f in doc.fields ensures EndsLine(FieldLine(f)) { FieldLineEnds(f); }
    SectionEndsLine(doc.headings, HeadingItem);
    SectionEndsLine(doc.links, LinkLine);
    SectionEndsLine(doc.buttons, ButtonLine);
    SectionEndsLine(doc.fields, FieldItem);
    SectionEndsLine(doc.images, ImageLine);
    var h := Section(doc.headings, HeadingItem);
    var l := Section(doc.links, LinkLine);
    var b := Section(doc.buttons, ButtonLine);
    var f := Section(doc.fields, FieldItem);
    var m := Section(doc.images, ImageLine);
    ConcatEndsLine(h, l);
    ConcatEndsLine(h + l, b);
    ConcatEndsLine(h + l + b, f);
    ConcatEndsLine(h + l + b + f, m);
  }

  /** One more element: its line, if any, follows the lines before it. */
  lemma SectionStep<T>(done: string, xs: seq<T>, i: nat, line: T -> Option<string>)
    requires i < |xs|
    ensures done + Section(xs[..i + 1], line) == done + Section(xs[..i], line) + Emit(line(xs[i]))
  {
    assert xs[..i + 1][..i] == xs[..i];
  }

  /** The heading loop: every heading appends its line. */
  method AppendHeadings(start: string, hs: seq<Heading>) returns (content: string)
    ensures content == start + Section(hs, HeadingItem)
  {
    content := start;
    for i := 0 to |hs|
      invariant content == start + Section(hs[..i], HeadingItem)
    {
      SectionStep(start, hs, i, HeadingItem);
      content := content + ("Heading " + hs[i].tagName + ": " + Trim(hs[i].text) + "\n");
    }
    assert hs[..|hs|] == hs;
  }

  /** The link loop: a link appends its line when it has an `href` and text. */
  method AppendLinks(start: string, ls: seq<Link>) returns (content: string)
    ensures content == start + Section(ls, LinkLine)
  {
    content := start;
    for i := 0 to |ls|
      invariant content == start + Section(ls[..i], LinkLine)
    {
      SectionStep(start, ls, i, LinkLine);
      var href := ls[i].href;
      var text := Trim(ls[i].text);
      if Given(href) && text != "" {
        assert Emit(LinkLine(ls[i])) == "Link: \"" + text + "\" (URL: " + href.value + ")\n";
        content := content + ("Link: \"" + text + "\" (URL: " + href.value + ")\n");
      }
    }
    assert ls[..|ls|] == ls;
  }

  /** The button loop: a button appends its line when it has text. */
  method AppendButtons(start: string, bs: seq<string>) returns (content: string)
    ensures content == start + Section(bs, ButtonLine)
  {
    content := start;
    for i := 0 to |bs|
      invariant content == start + Section(bs[..i], ButtonLine)
    {
      SectionStep(start, bs, i, ButtonLine);
      var text := Trim(bs[i]);
      if text != "" {
        assert Emit(ButtonLine(bs[i])) == "Button: \"" + text + "\"\n";
        content := content + ("Button: \"" + text + "\"\n");
      }
    }
    assert bs[..|bs|] == bs;
  }

  /** The form-field loop: every field appends its line. */
  method AppendFields(start: string, fs: seq<Field>) returns (content: string)
    ensures content == start + Section(fs, FieldItem)
  {
    content := start;
    for i := 0 to |fs|
      invariant content == start + Section(fs[..i], FieldItem)
    {
      SectionStep(start, fs, i, FieldItem);
      var fieldInfo := FieldInfo(fs[i]);
      content := content + fieldInfo;
    }
    assert fs[..|fs|] == fs;
  }

  /** The image loop: an image appends its `alt` line, else its `src` line. */
  method AppendImages(start: string, ims: seq<Image>) returns (content: string)
    ensures content == start + Section(ims, ImageLine)
  {
    content := start;
    for i := 0 to |ims|
      invariant content == start + Section(ims[..i], ImageLine)
    {
      SectionStep(start, ims, i, ImageLine);
      var alt := ims[i].alt;
      var src := ims[i].src;
      if Given(alt) {
        assert Emit(ImageLine(ims[i])) == "Image (Alt: \"" + alt.value + "\", Src: " + Show(src) + ")\n";
        content := content + ("Image (Alt: \"" + alt.value + "\", Src: " + Show(src) + ")\n");
      } else if Given(src) {
        assert Emit(ImageLine(ims[i])) == "Image (Src: " + src.value + ", No Alt Text)\n";
        content := content + ("Image (Src: " + src.value + ", No Alt Text)\n");
      }
    }
    assert ims[..|ims|] == ims;
  }

  /** The structured content built as the handler builds it: the five loops
      in turn, each appending to the same text. */
  method BuildStructure(doc: Document) returns (content: string)
    ensures content == Sections(doc)
  {
    content := "";
    content := AppendHeadings(content, doc.headings);
    assert content == Section(doc.headings, HeadingItem);
    content := AppendLinks(content, doc.links);
    content := AppendButtons(content, doc.buttons);
    content := AppendFields(content, doc.fields);
    content := AppendImages(content, doc.images);
  }
}
