/**
 * The one-shot page summariser: it checks the URL, fetches the page, decodes
 * it with the character set its `Content-Type` names, reduces it to a text
 * excerpt and a list of structural lines, and asks the model for UX
 * suggestions about them.
 *
 * The network, the text decoder, the HTML parser and the model are
 * parameters or oracles; the prompt is recorded by what it shows.
 */
module Analyze {
  import opened Common
  import opened JsText
  import opened PageText
  import opened Charset
  import opened Structure

  const InvalidUrlMessage := "Invalid URL provided."
  const FetchFailedPrefix := "Failed to fetch URL: "

  /** `/^https?:\/\//`: `http`, an optional `s`, then `://`, at the start. */
  predicate HttpUrl(url: string) {
    && |url| >= 7
    && url[0] == 'h' && url[1] == 't' && url[2] == 't' && url[3] == 'p'
    && var k := if url[4] == 's' then 5 else 4;
       k + 3 <= |url| && url[k] == ':' && url[k + 1] == '/' && url[k + 2] == '/'
  }

  /** The pattern accepts exactly the URLs written with one of the two schemes. */
  lemma HttpUrlPrefixes(url: string)
    ensures HttpUrl(url) <==> "http://" <= url || "https://" <= url
  {
    if "https://" <= url {
      assert url[..8] == "https://";
      assert url[4] == 's' && url[5] == ':' && url[6] == '/' && url[7] == '/';
    } else if "http://" <= url {
      assert url[..7] == "http://";
      assert url[4] == ':' && url[5] == '/' && url[6] == '/';
    }
    if HttpUrl(url) {
      if url[4] == 's' {
        assert url[..8] == "https://";
      } else {
        assert url[..7] == "http://";
      }
    }
  }

  /** The URL check: present, a string, not empty, and matching the pattern. */
  predicate AcceptsUrl(url: Option<string>) {
    Given(url) && HttpUrl(url.value)
  }

  /** What `fetch` resolves to: the status, whether it is a success and the
      `Content-Type` header. */
  datatype FetchResponse = FetchResponse(
    ok: bool,
    status: int,
    statusText: string,
    contentType: Option<string>)

  /** `fetch(url)`: the response, or the error it throws. Informational
      responses never reach the caller, so the status is a three-digit code
      from 200 on; a response is a success exactly when its status is in the
      200 range. */
  method Fetch(url: string) returns (r: Result<FetchResponse>)
    ensures r.Ok? ==> 200 <= r.value.status <= 999
    ensures r.Ok? ==> (r.value.ok <==> 200 <= r.value.status <= 299)
  {
    var ok: bool :| true;
    if ok {
      var status: int :| 200 <= status <= 999;
      var statusText: string :| true;
      var contentType: Option<string> :| true;
      r := Ok(FetchResponse(200 <= status <= 299, status, statusText, contentType));
    } else {
      var m: string :| true;
      r := Err(m);
    }
  }

  /** `response.arrayBuffer()`: the body bytes, or the error it throws. */
  method ReadBody(response: FetchResponse) returns (r: Result<seq<bv8>>)
  {
    var ok: bool :| true;
    if ok {
      var body: seq<bv8> :| true;
      r := Ok(body);
    } else {
      var m: string :| true;
      r := Err(m);
    }
  }

  /** What the summary prompt shows the model. */
  datatype SummaryPrompt = SummaryPrompt(text: string, structure: string)

  /** `model.generateContent(prompt)`: the reply text, or the error thrown. */
  method Suggest(prompt: SummaryPrompt) returns (r: Result<string>)
  {
    var ok: bool :| true;
    if ok {
      var text: string :| true;
      r := Ok(text);
    } else {
      var m: string :| true;
      r := Err(m);
    }
  }

  /** The JSON response: 200 with the suggestions, or an error status. */
  datatype AnalyzeResponse = Suggestions(text: string) | Error(status: int, message: string)

  /** The statuses that never carry a body. */
  predicate NullBodyStatus(status: int) {
    status in {101, 103, 204, 205, 304}
  }

  /** The statuses a JSON response can be built with: in the range 200 to
      599, and not one that never carries a body. */
  predicate StatusAllowed(status: int) {
    200 <= status <= 599 && !NullBodyStatus(status)
  }

  /** Of the statuses a failed fetch can report, the response constructor
      refuses exactly 304 and those above 599, so only these turn the
      `Failed to fetch URL` answer into a 500. */
  lemma FailedStatusAllowed(status: int)
    requires 200 <= status <= 999 && !(200 <= status <= 299)
    ensures NullBodyStatus(status) <==> status == 304
    ensures StatusAllowed(status) <==> status <= 599 && status != 304
  {
  }

  /** `NextResponse.json({ error: message }, { status })`: the error
      response, or the error the response constructor throws for a status
      it refuses. */
  method ErrorResponse(status: int, message: string) returns (r: Result<AnalyzeResponse>)
    ensures r.Ok? <==> StatusAllowed(status)
    ensures r.Ok? ==> r.value == Error(status, message)
  {
    if StatusAllowed(status) {
      r := Ok(Error(status, message));
    } else {
      var m: string :| true;
      r := Err(m);
    }
  }

  /** The page as a string: decoded with the header's charset, or as UTF-8
      when the decoder refuses that label. `decode` is the decoder for a
      label (None when it throws), `decodeUtf8` the UTF-8 decoder. */
  function Decoded(page: FetchResponse, body: seq<bv8>, decode: (string, seq<bv8>) -> Option<string>,
                   decodeUtf8: seq<bv8> -> string): string
  {
    var attempt := decode(CharsetOf(page.contentType), body);
    if attempt.Some? then attempt.value else decodeUtf8(body)
  }

  /** What the prompt shows for a page's markup: the normalised body text and
      the structural lines, each cut to 5000 characters. `load` parses the
      filtered markup. */
  function Summarize(html: string, load: string -> Document): (r: SummaryPrompt)
    ensures |r.text| <= MaxTextLength + |TruncationMark|
    ensures |r.structure| <= MaxTextLength + |TruncationMark|
  {
    var doc := load(FilterChars(html));
    SummaryPrompt(Truncate(Normalize(doc.bodyText)), Truncate(Sections(doc)))
  }

  /** The text excerpt has no white space at either end, keeps every other
      character of the body text when it is short enough, and is otherwise
      the first 5000 characters of the normalised text, marked. */
  lemma SummaryText(html: string, load: string -> Document)
    ensures NoEdgeSpace(Summarize(html, load).text)
    ensures var t := Normalize(load(FilterChars(html)).bodyText);
      |t| <= MaxTextLength ==> NonSpace(Summarize(html, load).text) == NonSpace(load(FilterChars(html)).bodyText)
  {
    TruncateKeepsEdges(Normalize(load(FilterChars(html)).bodyText));
  }

  /** The structural part is whole lines unless it was cut. */
  lemma SummaryStructure(html: string, load: string -> Document)
    ensures var s := Sections(load(FilterChars(html)));
      |s| <= MaxTextLength ==> Summarize(html, load).structure == s && (s != "" ==> EndsLine(s))
  {
    StructureEndsLine(load(FilterChars(html)));
  }

  /** The character-set detection as the handler writes it: the default, then
      the lower-cased capture when the header holds the marker and the
      expression matches, then the alias table. */
  method DetectCharset(contentType: Option<string>) returns (charset: string)
    ensures charset == CharsetOf(contentType)
  {
    charset := DefaultCharset;
    if contentType.Some? && Includes(contentType.value, Marker) {
      var m := FirstMatch(contentType.value, 0);
      if m.Some? {
        charset := Lower(Captured(contentType.value, m.value));
        if charset == "shift_jis" || charset == "x-sjis" || charset == "windows-31j" {
          charset := "shift-jis";
        } else if charset == "euc-jp" {
          charset := "euc-jp";
        }
      }
    }
  }

  /** The preprocessing as the handler writes it: filter the characters,
      parse, normalise and cut the body text, then build and cut the
      structural lines. */
  method Preprocess(html: string, load: string -> Document) returns (processedText: string, structuredContent: string)
    ensures SummaryPrompt(processedText, structuredContent) == Summarize(html, load)
  {
    var cleaned := FilterChars(html);
    var doc := load(cleaned);
    processedText := doc.bodyText;
    processedText := MergeBlankLines(processedText);
    processedText := SqueezeRuns(processedText);
    processedText := Trim(processedText);
    if |processedText| > MaxTextLength {
      processedText := processedText[..MaxTextLength] + TruncationMark;
    }
    structuredContent := BuildStructure(doc);
    if |structuredContent| > MaxTextLength {
      structuredContent := structuredContent[..MaxTextLength] + TruncationMark;
    }
  }

  /** The handler. `url` is the request's `url` field (None when absent or
      not a string); `decode`, `decodeUtf8` and `load` are the text decoder
      and the HTML parser. The ghost results record the fetched response,
      its body and the prompt sent. */
  method Post(url: Option<string>, decode: (string, seq<bv8>) -> Option<string>,
              decodeUtf8: seq<bv8> -> string, load: string -> Document)
    returns (resp: AnalyzeResponse, ghost page: Option<FetchResponse>, ghost body: Option<seq<bv8>>,
             ghost prompt: Option<SummaryPrompt>)
    ensures !AcceptsUrl(url) <==> resp == Error(400, InvalidUrlMessage) && page.None?
    ensures AcceptsUrl(url) && page.None? ==> resp.Error? && resp.status == 500
    ensures page.None? ==> body.None? && prompt.None?
    ensures page.Some? && !page.value.ok ==> body.None? && prompt.None?
    ensures page.Some? && !page.value.ok && StatusAllowed(page.value.status) ==>
      && resp == Error(page.value.status, FetchFailedPrefix + page.value.statusText)
      && !(200 <= resp.status <= 299)
    ensures page.Some? && !page.value.ok && !StatusAllowed(page.value.status) ==>
      resp.Error? && resp.status == 500
    ensures body.Some? ==> page.Some? && page.value.ok
    ensures page.Some? && page.value.ok && body.None? ==> resp.Error? && resp.status == 500
    ensures page.Some? && page.value.ok && body.Some? ==> prompt.Some?
    ensures prompt.Some? ==>
      && AcceptsUrl(url) && page.Some? && page.value.ok && body.Some?
      && prompt.value == Summarize(Decoded(page.value, body.value, decode, decodeUtf8), load)
    ensures resp.Suggestions? ==> prompt.Some?
    ensures prompt.Some? ==> resp.Suggestions? || (resp.Error? && resp.status == 500)
    ensures resp.Error? && resp.status == 500 ==> AcceptsUrl(url)
  {
    page, body, prompt := None, None, None;
    if !AcceptsUrl(url) {
      return Error(400, InvalidUrlMessage), page, body, prompt;
    }
    var fetched := Fetch(url.value);
    if fetched.Err? {
      return Error(500, fetched.message), page, body, prompt;
    }
    var response := fetched.value;
    page := Some(response);
    if !response.ok {
      var failure := ErrorResponse(response.status, FetchFailedPrefix + response.statusText);
      if failure.Err? {
        return Error(500, failure.message), page, body, prompt;
      }
      return failure.value, page, body, prompt;
    }
    var read := ReadBody(response);
    if read.Err? {
      return Error(500, read.message), page, body, prompt;
    }
    var htmlContentBuffer := read.value;
    body := Some(htmlContentBuffer);
    var charset := DetectCharset(response.contentType);
    var htmlContent: string;
    var attempt := decode(charset, htmlContentBuffer);
    if attempt.Some? {
      htmlContent := attempt.value;
    } else {
      htmlContent := decodeUtf8(htmlContentBuffer);
    }
    var processedText, structuredContent := Preprocess(htmlContent, load);
    var summary := SummaryPrompt(processedText, structuredContent);
    prompt := Some(summary);
    var reply := Suggest(summary);
    if reply.Err? {
      return Error(500, reply.message), page, body, prompt;
    }
    resp := Suggestions(reply.value);
  }
}
