/** The document-to-sequence input adaptation of the document labeler:
    flattening a multi-page document into a per-token context, emitting one
    text per page, checking page offsets, labels and context against the
    joined text, and moving per-page token offsets into whole-document
    coordinates. */
module DocumentLabeling {
  import opened Results

  // ---------------------------------------------------------------------
  // Data model
  // ---------------------------------------------------------------------

  /** A token's bounding box on its page. */
  datatype Position = Position(top: real, bottom: real, left: real, right: real)

  /** A half-open range of character offsets into the whole document. */
  datatype Offset = Offset(start: int, end: int)

  datatype Token = Token(text: string, position: Position, docOffset: Offset)

  datatype Dpi = Dpi(dpix: real, dpiy: real)

  /** One entry of a page's `pages` list; only the first entry is ever read. */
  datatype PageInfo = PageInfo(text: string, docOffset: Offset, dpi: Dpi)

  datatype Page = Page(tokens: seq<Token>, pages: seq<PageInfo>)

  type Document = seq<Page>

  /** The horizontal and vertical factors a page's positions are scaled by. */
  datatype Norm = Norm(x: real, y: real)

  /** One element of the flattened context: a token's scaled box, its document
      offsets and its text. */
  datatype ContextEntry = ContextEntry(
    top: real, bottom: real, left: real, right: real,
    start: int, end: int, text: string)

  /** A label span of a document, in whole-document character offsets. */
  datatype Label = Label(start: int, end: int, text: string, kind: string)

  /** What the labeler's input pipeline produces for one document. */
  datatype Sample = Sample(
    x: seq<string>,
    rawText: string,
    context: Option<seq<ContextEntry>>,
    y: Option<seq<Label>>)

  /** One chunk of encoder output; `tokenIds` and `tokens` stand for the
      fields the rebasing step passes through unchanged. */
  datatype EncodedOutput = EncodedOutput(
    tokenIds: seq<int>,
    tokens: seq<string>,
    tokenStarts: seq<int>,
    tokenEnds: seq<int>)

  /** The ways preparing a document fails. */
  datatype Error =
    | MissingPageInfo      // `page["pages"][0]` on an empty list
    | ZeroDpi              // `300 / dpi`, with a zero dpi
    | OffsetGap            // a page does not start right after the previous one
    | ContextGiven         // a context was passed in
    | LabelCountMismatch   // labels and documents differ in number
    | ContextSpanMismatch  // a context token's text is not the joined text at its offsets
    | LabelSpanMismatch    // a label's text is not the joined text at its offsets
    | ChunkLengthMismatch  // a chunk's token starts and ends differ in number

  // ---------------------------------------------------------------------
  // Strings
  // ---------------------------------------------------------------------

  /** Concatenation of strings, as `"".join(ts)`. */
  function Concat(ts: seq<string>): string
  {
    if ts == [] then "" else Concat(ts[..|ts| - 1]) + ts[|ts| - 1]
  }

  /** Total length of the strings before index `p`. */
  function LengthBefore(ts: seq<string>, p: nat): nat
    requires p <= |ts|
  {
    if p == 0 then 0 else LengthBefore(ts, p - 1) + |ts[p - 1]|
  }

  /** A Python slice bound: negative counts from the end; out of range clamps. */
  function SliceBound(i: int, n: nat): (r: nat)
    ensures r <= n
  {
    if i < 0 then (if i + n < 0 then 0 else i + n)
    else if i > n then n
    else i
  }

  /** Python's `s[start:end]` on a string. */
  function PySlice(s: string, start: int, end: int): string
  {
    var a, b := SliceBound(start, |s|), SliceBound(end, |s|);
    if a < b then s[a..b] else ""
  }

  lemma PySliceInRange(s: string, start: int, end: int)
    requires 0 <= start <= end <= |s|
    ensures PySlice(s, start, end) == s[start..end]
  {
  }

  lemma {:induction false} ConcatLength(ts: seq<string>)
    ensures |Concat(ts)| == LengthBefore(ts, |ts|)
  {
    if ts != [] {
      ConcatLength(ts[..|ts| - 1]);
      LengthBeforePrefix(ts, |ts| - 1, |ts| - 1);
    }
  }

  /** `LengthBefore` only looks at the strings before its index. */
  lemma {:induction false} LengthBeforePrefix(ts: seq<string>, m: nat, p: nat)
    requires p <= m <= |ts|
    ensures LengthBefore(ts[..m], p) == LengthBefore(ts, p)
  {
    if p > 0 {
      LengthBeforePrefix(ts, m, p - 1);
    }
  }

  /** Page `p` of a joined text starts at the total length of the pages before it. */
  lemma {:induction false} ConcatAt(ts: seq<string>, p: nat, k: nat)
    requires p < |ts| && k < |ts[p]|
    ensures LengthBefore(ts, p) + k < |Concat(ts)|
    ensures Concat(ts)[LengthBefore(ts, p) + k] == ts[p][k]
  {
    var n := |ts|;
    var init := ts[..n - 1];
    ConcatLength(init);
    LengthBeforePrefix(ts, n - 1, n - 1);
    if p < n - 1 {
      ConcatAt(init, p, k);
      LengthBeforePrefix(ts, n - 1, p);
      LengthBeforeMonotone(ts, p + 1, n);
    } else {
      assert Concat(ts) == Concat(init) + ts[n - 1];
    }
  }

  lemma {:induction false} LengthBeforeMonotone(ts: seq<string>, p: nat, q: nat)
    requires p <= q <= |ts|
    ensures LengthBefore(ts, p) <= LengthBefore(ts, q)
  {
    if p < q {
      LengthBeforeMonotone(ts, p, q - 1);
    }
  }

  // ---------------------------------------------------------------------
  // get_context
  // ---------------------------------------------------------------------

  /** The factors for a page's positions: 300 over the first `pages` entry's dpi
      when normalising, otherwise 1. */
  function PageNorm(page: Page, dpiNorm: bool): Result<Norm, Error>
  {
    if !dpiNorm then Success(Norm(1.0, 1.0))
    else if |page.pages| == 0 then Failure(MissingPageInfo)
    else if page.pages[0].dpi.dpix == 0.0 || page.pages[0].dpi.dpiy == 0.0 then Failure(ZeroDpi)
    else Success(Norm(300.0 / page.pages[0].dpi.dpix, 300.0 / page.pages[0].dpi.dpiy))
  }

  function Entry(token: Token, norm: Norm): ContextEntry
  {
    ContextEntry(
      token.position.top * norm.y, token.position.bottom * norm.y,
      token.position.left * norm.x, token.position.right * norm.x,
      token.docOffset.start, token.docOffset.end, token.text)
  }

  function PageEntries(page: Page, norm: Norm): (r: seq<ContextEntry>)
    ensures |r| == |page.tokens|
  {
    seq(|page.tokens|, i requires 0 <= i < |page.tokens| => Entry(page.tokens[i], norm))
  }

  /** A page's part of the context; the dpi is only looked up when the page has tokens. */
  function PageContext(page: Page, dpiNorm: bool): Result<seq<ContextEntry>, Error>
  {
    if |page.tokens| == 0 then Success([])
    else match PageNorm(page, dpiNorm)
      case Failure(e) => Failure(e)
      case Success(norm) => Success(PageEntries(page, norm))
  }

  /** The context of a whole document, page after page; the first failing page decides the error. */
  function Context(doc: Document, dpiNorm: bool): Result<seq<ContextEntry>, Error>
  {
    if doc == [] then Success([])
    else match Context(doc[..|doc| - 1], dpiNorm)
      case Failure(e) => Failure(e)
      case Success(c) =>
        match PageContext(doc[|doc| - 1], dpiNorm)
        case Failure(e) => Failure(e)
        case Success(pc) => Success(c + pc)
  }

  /** Number of tokens on the pages before page `p`. */
  function TokensBefore(doc: Document, p: nat): nat
    requires p <= |doc|
  {
    if p == 0 then 0 else TokensBefore(doc, p - 1) + |doc[p - 1].tokens|
  }

  /** Flattens a document into one context entry per token (get_context). */
  method GetContext(document: Document, dpiNorm: bool) returns (r: Result<seq<ContextEntry>, Error>)
    ensures r == Context(document, dpiNorm)
  {
    var context: seq<ContextEntry> := [];
    var p := 0;
    while p < |document|
      invariant 0 <= p <= |document|
      invariant Context(document[..p], dpiNorm) == Success(context)
    {
      var page := document[p];
      ghost var before := context;
      assert document[..p + 1][..p] == document[..p];
      var t := 0;
      while t < |page.tokens|
        invariant 0 <= t <= |page.tokens|
        invariant t == 0 ==> context == before
        invariant t > 0 ==> PageNorm(page, dpiNorm).Success?
        invariant t > 0 ==> context == before + PageEntries(page, PageNorm(page, dpiNorm).value)[..t]
      {
        var token := page.tokens[t];
        var norm: Norm;
        if dpiNorm {
          if |page.pages| == 0 {
            ContextFailurePersists(document, dpiNorm, p + 1);
            return Failure(MissingPageInfo);
          }
          var dpi := page.pages[0].dpi;
          if dpi.dpix == 0.0 || dpi.dpiy == 0.0 {
            ContextFailurePersists(document, dpiNorm, p + 1);
            return Failure(ZeroDpi);
          }
          norm := Norm(300.0 / dpi.dpix, 300.0 / dpi.dpiy);
        } else {
          norm := Norm(1.0, 1.0);
        }
        assert norm == PageNorm(page, dpiNorm).value;
        assert PageEntries(page, norm)[..t + 1] == PageEntries(page, norm)[..t] + [Entry(token, norm)];
        context := context + [Entry(token, norm)];
        t := t + 1;
      }
      ghost var pc: seq<ContextEntry> := [];
      if t > 0 {
        pc := PageEntries(page, PageNorm(page, dpiNorm).value);
        assert pc[..t] == pc;
      } else {
        assert context == before + pc;
      }
      assert PageContext(page, dpiNorm) == Success(pc);
      assert document[..p + 1][p] == page;
      assert Context(document[..p + 1], dpiNorm) == Success(before + pc);
      p := p + 1;
    }
    assert document[..p] == document;
    r := Success(context);
  }

  /** Once a prefix of the pages fails, the whole document fails the same way. */
  lemma {:induction false} ContextFailurePersists(doc: Document, dpiNorm: bool, k: nat)
    requires k <= |doc|
    requires Context(doc[..k], dpiNorm).Failure?
    ensures Context(doc, dpiNorm) == Context(doc[..k], dpiNorm)
  {
    if k == |doc| {
      assert doc[..k] == doc;
    } else {
      var init := doc[..|doc| - 1];
      assert init[..k] == doc[..k];
      ContextFailurePersists(init, dpiNorm, k);
    }
  }

  /** `TokensBefore` only looks at the pages before its index. */
  lemma {:induction false} TokensBeforePrefix(doc: Document, m: nat, p: nat)
    requires p <= m <= |doc|
    ensures TokensBefore(doc[..m], p) == TokensBefore(doc, p)
  {
    if p > 0 {
      TokensBeforePrefix(doc, m, p - 1);
    }
  }

  /** The context holds exactly one entry per token of the document. */
  lemma {:induction false} ContextLength(doc: Document, dpiNorm: bool)
    requires Context(doc, dpiNorm).Success?
    ensures |Context(doc, dpiNorm).value| == TokensBefore(doc, |doc|)
  {
    if doc != [] {
      var init := doc[..|doc| - 1];
      ContextLength(init, dpiNorm);
      TokensBeforePrefix(doc, |doc| - 1, |doc| - 1);
    }
  }

  /** Flattening fails exactly when some page with tokens cannot give its dpi factors. */
  lemma {:induction false} ContextSucceedsIff(doc: Document, dpiNorm: bool)
    ensures Context(doc, dpiNorm).Success?
        <==> forall p :: 0 <= p < |doc| && |doc[p].tokens| > 0 ==> PageNorm(doc[p], dpiNorm).Success?
  {
    if doc != [] {
      var init := doc[..|doc| - 1];
      ContextSucceedsIff(init, dpiNorm);
      assert forall p :: 0 <= p < |init| ==> init[p] == doc[p];
    }
  }

  /** Entry `TokensBefore(doc, p) + t` of the context is token `t` of page `p`,
      scaled by that page's factors. */
  lemma {:induction false} ContextEntryAt(doc: Document, dpiNorm: bool, p: nat, t: nat)
    requires Context(doc, dpiNorm).Success?
    requires p < |doc| && t < |doc[p].tokens|
    ensures PageNorm(doc[p], dpiNorm).Success?
    ensures TokensBefore(doc, p) + t < |Context(doc, dpiNorm).value|
    ensures Context(doc, dpiNorm).value[TokensBefore(doc, p) + t] == Entry(doc[p].tokens[t], PageNorm(doc[p], dpiNorm).value)
  {
    var n := |doc|;
    var init := doc[..n - 1];
    ContextSplit(doc, dpiNorm);
    var pc := PageContext(doc[n - 1], dpiNorm).value;
    ContextLength(init, dpiNorm);
    TokensBeforePrefix(doc, n - 1, n - 1);
    if p < n - 1 {
      ContextEntryAt(init, dpiNorm, p, t);
      TokensBeforePrefix(doc, n - 1, p);
      TokensBeforeMonotone(doc, p + 1, n - 1);
    } else {
      assert pc == PageEntries(doc[p], PageNorm(doc[p], dpiNorm).value);
    }
  }

  /** A successful context is the context of all pages but the last, followed by the last page's part. */
  lemma ContextSplit(doc: Document, dpiNorm: bool)
    requires Context(doc, dpiNorm).Success? && doc != []
    ensures Context(doc[..|doc| - 1], dpiNorm).Success? && PageContext(doc[|doc| - 1], dpiNorm).Success?
    ensures Context(doc, dpiNorm).value == Context(doc[..|doc| - 1], dpiNorm).value + PageContext(doc[|doc| - 1], dpiNorm).value
  {
  }

  /** get_context's per-token promise: offsets and text copied unchanged, the box
      unchanged without dpi normalisation and scaled by 300 over the page's first
      dpi entry with it (vertical edges by `dpiy`, horizontal ones by `dpix`). */
  lemma ContextAt(doc: Document, dpiNorm: bool, p: nat, t: nat)
    requires Context(doc, dpiNorm).Success?
    requires p < |doc| && t < |doc[p].tokens|
    ensures TokensBefore(doc, p) + t < |Context(doc, dpiNorm).value|
    ensures
      var e, tok := Context(doc, dpiNorm).value[TokensBefore(doc, p) + t], doc[p].tokens[t];
      && e.start == tok.docOffset.start && e.end == tok.docOffset.end && e.text == tok.text
      && (!dpiNorm ==>
            e.top == tok.position.top && e.bottom == tok.position.bottom
            && e.left == tok.position.left && e.right == tok.position.right)
      && (dpiNorm ==>
            |doc[p].pages| > 0 && doc[p].pages[0].dpi.dpix != 0.0 && doc[p].pages[0].dpi.dpiy != 0.0
            && e.top == tok.position.top * (300.0 / doc[p].pages[0].dpi.dpiy)
            && e.bottom == tok.position.bottom * (300.0 / doc[p].pages[0].dpi.dpiy)
            && e.left == tok.position.left * (300.0 / doc[p].pages[0].dpi.dpix)
            && e.right == tok.position.right * (300.0 / doc[p].pages[0].dpi.dpix))
  {
    ContextEntryAt(doc, dpiNorm, p, t);
  }

  lemma {:induction false} TokensBeforeMonotone(doc: Document, p: nat, q: nat)
    requires p <= q <= |doc|
    ensures TokensBefore(doc, p) <= TokensBefore(doc, q)
  {
    if p < q {
      TokensBeforeMonotone(doc, p, q - 1);
    }
  }

  // ---------------------------------------------------------------------
  // _single_convert_to_finetune
  // ---------------------------------------------------------------------

  /** Every page has a first `pages` entry. */
  predicate HasPageInfo(doc: Document)
  {
    forall p :: 0 <= p < |doc| ==> |doc[p].pages| > 0
  }

  /** The pages' document offsets are contiguous after `lastEnd`: each page starts
      one past the end of the page before it, the first one past `lastEnd`. */
  predicate ContiguousAfter(doc: Document, lastEnd: int)
    requires HasPageInfo(doc)
  {
    && (|doc| > 0 ==> doc[0].pages[0].docOffset.start == lastEnd + 1)
    && forall p :: 0 < p < |doc| ==> doc[p].pages[0].docOffset.start == doc[p - 1].pages[0].docOffset.end + 1
  }

  /** One text per page: the page text followed by a newline. */
  function PageTexts(doc: Document): (r: seq<string>)
    requires HasPageInfo(doc)
    ensures |r| == |doc|
  {
    seq(|doc|, p requires 0 <= p < |doc| => doc[p].pages[0].text + "\n")
  }

  /** The page loop of the conversion, from a given previous end offset. */
  function PageLoop(doc: Document, lastEnd: int): Result<seq<string>, Error>
  {
    if doc == [] then Success([])
    else if |doc[0].pages| == 0 then Failure(MissingPageInfo)
    else if doc[0].pages[0].docOffset.start != lastEnd + 1 then Failure(OffsetGap)
    else match PageLoop(doc[1..], doc[0].pages[0].docOffset.end)
      case Failure(e) => Failure(e)
      case Success(ts) => Success([doc[0].pages[0].text + "\n"] + ts)
  }

  /** Texts collected so far, followed by what the rest of the loop yields. */
  function PrependTexts(texts: seq<string>, rest: Result<seq<string>, Error>): Result<seq<string>, Error>
  {
    match rest
    case Failure(e) => Failure(e)
    case Success(ts) => Success(texts + ts)
  }

  /** The whole conversion of one document: its context first, then its page texts. */
  function Convert(doc: Document, dpiNorm: bool): Result<(seq<string>, seq<ContextEntry>), Error>
  {
    match Context(doc, dpiNorm)
    case Failure(e) => Failure(e)
    case Success(c) =>
      match PageLoop(doc, -1)
      case Failure(e) => Failure(e)
      case Success(ts) => Success((ts, c))
  }

  /** Converts one document into its page texts and its context (_single_convert_to_finetune). */
  method SingleConvertToFinetune(document: Document, dpiNorm: bool)
    returns (r: Result<(seq<string>, seq<ContextEntry>), Error>)
    ensures r == Convert(document, dpiNorm)
  {
    var context :- GetContext(document, dpiNorm);
    var texts: seq<string> := [];
    var lastEnd := -1;
    var p := 0;
    assert document[0..] == document;
    match PageLoop(document, -1) {
      case Failure(_) =>
      case Success(ts) => assert texts + ts == ts;
    }
    while p < |document|
      invariant 0 <= p <= |document|
      invariant PageLoop(document, -1) == PrependTexts(texts, PageLoop(document[p..], lastEnd))
    {
      var rest := document[p..];
      assert rest[0] == document[p] && rest[1..] == document[p + 1..];
      if |document[p].pages| == 0 {
        return Failure(MissingPageInfo);
      }
      var pageObj := document[p].pages[0];
      ghost var before := texts;
      texts := texts + [pageObj.text + "\n"];
      if pageObj.docOffset.start != lastEnd + 1 {
        return Failure(OffsetGap);
      }
      match PageLoop(document[p + 1..], pageObj.docOffset.end) {
        case Failure(_) =>
        case Success(ts) => assert before + ([pageObj.text + "\n"] + ts) == texts + ts;
      }
      lastEnd := pageObj.docOffset.end;
      p := p + 1;
    }
    assert document[p..] == [] && texts + [] == texts;
    r := Success((texts, context));
  }

  /** The page loop succeeds exactly when every page has its first entry and the
      offsets are contiguous, and then it yields one "text\n" per page, in order. */
  lemma {:induction false} PageLoopSucceedsIff(doc: Document, lastEnd: int)
    ensures PageLoop(doc, lastEnd).Success? <==> HasPageInfo(doc) && ContiguousAfter(doc, lastEnd)
    ensures PageLoop(doc, lastEnd).Success? ==> PageLoop(doc, lastEnd).value == PageTexts(doc)
  {
    if doc != [] {
      var tail := doc[1..];
      assert forall p :: 0 <= p < |tail| ==> tail[p] == doc[p + 1];
      if |doc[0].pages| > 0 {
        var end := doc[0].pages[0].docOffset.end;
        PageLoopSucceedsIff(tail, end);
        if HasPageInfo(doc) && ContiguousAfter(doc, lastEnd) {
          assert HasPageInfo(tail);
          assert ContiguousAfter(tail, end) by {
            forall p | 0 < p < |tail|
              ensures tail[p].pages[0].docOffset.start == tail[p - 1].pages[0].docOffset.end + 1
            {
              assert doc[p + 1].pages[0].docOffset.start == doc[p].pages[0].docOffset.end + 1;
            }
            if |tail| > 0 {
              assert doc[1].pages[0].docOffset.start == doc[0].pages[0].docOffset.end + 1;
            }
          }
        }
        if PageLoop(doc, lastEnd).Success? {
          assert HasPageInfo(doc);
          assert ContiguousAfter(doc, lastEnd) by {
            forall p | 0 < p < |doc|
              ensures doc[p].pages[0].docOffset.start == doc[p - 1].pages[0].docOffset.end + 1
            {
              if p == 1 {
                assert doc[1] == tail[0];
              } else {
                assert doc[p] == tail[p - 1] && doc[p - 1] == tail[p - 2];
              }
            }
          }
          assert PageTexts(doc) == [doc[0].pages[0].text + "\n"] + PageTexts(tail);
        }
      }
    }
  }

  /** A converted document has one text per page, each the page's text and a newline,
      and conversion fails exactly when flattening fails, a page lacks its first
      entry, or the page offsets are not contiguous from 0. */
  lemma ConvertOutcome(doc: Document, dpiNorm: bool)
    ensures Convert(doc, dpiNorm).Success?
        <==> Context(doc, dpiNorm).Success? && HasPageInfo(doc) && ContiguousAfter(doc, -1)
    ensures Convert(doc, dpiNorm).Success? ==>
      var (texts, context) := Convert(doc, dpiNorm).value;
      && |texts| == |doc|
      && (forall p :: 0 <= p < |doc| ==> texts[p] == doc[p].pages[0].text + "\n")
      && context == Context(doc, dpiNorm).value
  {
    PageLoopSucceedsIff(doc, -1);
  }

  // ---------------------------------------------------------------------
  // DocumentPipeline.zip_list_to_dict
  // ---------------------------------------------------------------------

  predicate ContextMatches(context: seq<ContextEntry>, joined: string)
  {
    forall k :: 0 <= k < |context| ==> context[k].text == PySlice(joined, context[k].start, context[k].end)
  }

  predicate LabelsMatch(labels: seq<Label>, joined: string)
  {
    forall k :: 0 <= k < |labels| ==> labels[k].text == PySlice(joined, labels[k].start, labels[k].end)
  }

  /** The sample built from one document and, when given, its labels. */
  function SampleOf(doc: Document, labels: Option<seq<Label>>, defaultContext: bool): Result<Sample, Error>
  {
    match Convert(doc, true)
    case Failure(e) => Failure(e)
    case Success(tc) =>
      var joined := Concat(tc.0);
      if defaultContext && !ContextMatches(tc.1, joined) then Failure(ContextSpanMismatch)
      else if labels.Some? && !LabelsMatch(labels.value, joined) then Failure(LabelSpanMismatch)
      else Success(Sample(tc.0, joined, if defaultContext then Some(tc.1) else None, labels))
  }

  function LabelsFor(ys: Option<seq<seq<Label>>>, i: nat): Option<seq<Label>>
  {
    if ys.Some? && i < |ys.value| then Some(ys.value[i]) else None
  }

  /** The samples of the first `n` documents; the first failing document decides the error. */
  function ZipPrefix(xs: seq<Document>, ys: Option<seq<seq<Label>>>, defaultContext: bool, n: nat)
    : Result<seq<Sample>, Error>
    requires n <= |xs|
  {
    if n == 0 then Success([])
    else match ZipPrefix(xs, ys, defaultContext, n - 1)
      case Failure(e) => Failure(e)
      case Success(out) =>
        match SampleOf(xs[n - 1], LabelsFor(ys, n - 1), defaultContext)
        case Failure(e) => Failure(e)
        case Success(s) => Success(out + [s])
  }

  function Zip<C>(xs: seq<Document>, ys: Option<seq<seq<Label>>>, context: Option<C>, defaultContext: bool)
    : Result<seq<Sample>, Error>
  {
    if context.Some? then Failure(ContextGiven)
    else if ys.Some? && |xs| != |ys.value| then Failure(LabelCountMismatch)
    else ZipPrefix(xs, ys, defaultContext, |xs|)
  }

  /** Builds one sample per document (DocumentPipeline.zip_list_to_dict). */
  method ZipListToDict<C>(xs: seq<Document>, ys: Option<seq<seq<Label>>>, context: Option<C>, defaultContext: bool)
    returns (r: Result<seq<Sample>, Error>)
    ensures r == Zip(xs, ys, context, defaultContext)
  {
    if context.Some? {
      return Failure(ContextGiven);
    }
    if ys.Some? && |xs| != |ys.value| {
      return Failure(LabelCountMismatch);
    }
    var out: seq<Sample> := [];
    var i := 0;
    while i < |xs|
      invariant 0 <= i <= |xs|
      invariant ZipPrefix(xs, ys, defaultContext, i) == Success(out)
    {
      var sample := BuildSample(xs[i], LabelsFor(ys, i), defaultContext);
      if sample.Failure? {
        ZipPrefixStepFails(xs, ys, defaultContext, i, out);
        ZipFailurePersists(xs, ys, defaultContext, i + 1);
        return Failure(sample.error);
      }
      ZipPrefixStep(xs, ys, defaultContext, i, out, sample.value);
      out := out + [sample.value];
      i := i + 1;
    }
    r := Success(out);
  }

  /** The body of zip_list_to_dict's loop: convert one document, check its context
      tokens (with the default context) and its labels against the joined text. */
  method BuildSample(doc: Document, labels: Option<seq<Label>>, defaultContext: bool) returns (r: Result<Sample, Error>)
    ensures r == SampleOf(doc, labels, defaultContext)
  {
    var converted := SingleConvertToFinetune(doc, true);
    if converted.Failure? {
      return Failure(converted.error);
    }
    var (text, ctx) := converted.value;
    var joined := Concat(text);
    if defaultContext {
      for k := 0 to |ctx|
        invariant forall j :: 0 <= j < k ==> ctx[j].text == PySlice(joined, ctx[j].start, ctx[j].end)
      {
        if ctx[k].text != PySlice(joined, ctx[k].start, ctx[k].end) {
          return Failure(ContextSpanMismatch);
        }
      }
    }
    if labels.Some? {
      for k := 0 to |labels.value|
        invariant forall j :: 0 <= j < k ==> labels.value[j].text == PySlice(joined, labels.value[j].start, labels.value[j].end)
      {
        if labels.value[k].text != PySlice(joined, labels.value[k].start, labels.value[k].end) {
          return Failure(LabelSpanMismatch);
        }
      }
    }
    r := Success(Sample(text, joined, if defaultContext then Some(ctx) else None, labels));
  }

  /** One more document that converts adds its sample to the prefix. */
  lemma ZipPrefixStep(xs: seq<Document>, ys: Option<seq<seq<Label>>>, defaultContext: bool, i: nat, out: seq<Sample>, s: Sample)
    requires i < |xs|
    requires ZipPrefix(xs, ys, defaultContext, i) == Success(out)
    requires SampleOf(xs[i], LabelsFor(ys, i), defaultContext) == Success(s)
    ensures ZipPrefix(xs, ys, defaultContext, i + 1) == Success(out + [s])
  {
  }

  /** One more document that does not convert makes the prefix fail with its error. */
  lemma ZipPrefixStepFails(xs: seq<Document>, ys: Option<seq<seq<Label>>>, defaultContext: bool, i: nat, out: seq<Sample>)
    requires i < |xs|
    requires ZipPrefix(xs, ys, defaultContext, i) == Success(out)
    requires SampleOf(xs[i], LabelsFor(ys, i), defaultContext).Failure?
    ensures ZipPrefix(xs, ys, defaultContext, i + 1) == Failure(SampleOf(xs[i], LabelsFor(ys, i), defaultContext).error)
  {
  }

  lemma {:induction false} ZipFailurePersists(xs: seq<Document>, ys: Option<seq<seq<Label>>>, defaultContext: bool, k: nat)
    requires k <= |xs|
    requires ZipPrefix(xs, ys, defaultContext, k).Failure?
    ensures ZipPrefix(xs, ys, defaultContext, |xs|) == ZipPrefix(xs, ys, defaultContext, k)
    decreases |xs| - k
  {
    if k < |xs| {
      ZipFailurePersists(xs, ys, defaultContext, k + 1);
    }
  }

  /** The first `n` documents zip iff each of them yields a sample. */
  lemma {:induction false} ZipPrefixSucceedsIff(xs: seq<Document>, ys: Option<seq<seq<Label>>>, defaultContext: bool, n: nat)
    requires n <= |xs|
    ensures ZipPrefix(xs, ys, defaultContext, n).Success? <==>
      forall i :: 0 <= i < n ==> SampleOf(xs[i], LabelsFor(ys, i), defaultContext).Success?
  {
    if n > 0 {
      ZipPrefixSucceedsIff(xs, ys, defaultContext, n - 1);
    }
  }

  /** On success there is one sample per document: its `x` is the document's page
      texts, its raw text their concatenation, every label and (with the default
      context) every context token names exactly the joined text at its offsets,
      and the labels are passed through. */
  lemma {:induction false} ZipPrefixSamples(xs: seq<Document>, ys: Option<seq<seq<Label>>>, defaultContext: bool, n: nat)
    requires n <= |xs|
    requires ZipPrefix(xs, ys, defaultContext, n).Success?
    ensures |ZipPrefix(xs, ys, defaultContext, n).value| == n
    ensures forall i :: 0 <= i < n ==>
      var s, doc := ZipPrefix(xs, ys, defaultContext, n).value[i], xs[i];
      && Convert(doc, true).Success?
      && s.x == Convert(doc, true).value.0
      && s.rawText == Concat(s.x)
      && s.y == LabelsFor(ys, i)
      && (s.y.Some? ==> LabelsMatch(s.y.value, s.rawText))
      && (defaultContext <==> s.context.Some?)
      && (defaultContext ==> s.context.value == Convert(doc, true).value.1 && ContextMatches(s.context.value, s.rawText))
  {
    if n > 0 {
      ZipPrefixSamples(xs, ys, defaultContext, n - 1);
    }
  }

  /** zip_list_to_dict's outcome: a passed-in context and a label count that differs
      from the document count are errors; otherwise it succeeds iff every document
      yields a sample, and then each document becomes one sample whose raw text
      joins its page texts, and whose labels match that text. */
  lemma ZipOutcome<C>(xs: seq<Document>, ys: Option<seq<seq<Label>>>, context: Option<C>, defaultContext: bool)
    ensures context.Some? ==> Zip(xs, ys, context, defaultContext) == Failure(ContextGiven)
    ensures context.None? && ys.Some? && |xs| != |ys.value| ==>
      Zip(xs, ys, context, defaultContext) == Failure(LabelCountMismatch)
    ensures Zip(xs, ys, context, defaultContext).Success? <==>
      && context.None?
      && (ys.Some? ==> |xs| == |ys.value|)
      && forall i :: 0 <= i < |xs| ==> SampleOf(xs[i], LabelsFor(ys, i), defaultContext).Success?
    ensures Zip(xs, ys, context, defaultContext).Success? ==>
      var out := Zip(xs, ys, context, defaultContext).value;
      && |out| == |xs|
      && forall i :: 0 <= i < |xs| ==>
           && ConvertOutcomeHolds(xs[i])
           && out[i].x == PageTexts(xs[i])
           && out[i].rawText == Concat(PageTexts(xs[i]))
           && (ys.Some? ==> out[i].y == Some(ys.value[i]) && LabelsMatch(ys.value[i], out[i].rawText))
  {
    ZipPrefixSucceedsIff(xs, ys, defaultContext, |xs|);
    if Zip(xs, ys, context, defaultContext).Success? {
      ZipPrefixSamples(xs, ys, defaultContext, |xs|);
      forall i | 0 <= i < |xs| ensures ConvertOutcomeHolds(xs[i]) {
        ConvertOutcome(xs[i], true);
      }
    }
  }

  /** Documents are checked in order: when document `i` is the first that yields
      no sample, zip_list_to_dict fails with that document's error. */
  lemma ZipFirstError<C>(xs: seq<Document>, ys: Option<seq<seq<Label>>>, context: Option<C>, defaultContext: bool, i: nat)
    requires context.None? && (ys.Some? ==> |xs| == |ys.value|)
    requires i < |xs|
    requires forall j :: 0 <= j < i ==> SampleOf(xs[j], LabelsFor(ys, j), defaultContext).Success?
    requires SampleOf(xs[i], LabelsFor(ys, i), defaultContext).Failure?
    ensures Zip(xs, ys, context, defaultContext) == Failure(SampleOf(xs[i], LabelsFor(ys, i), defaultContext).error)
  {
    ZipPrefixSucceedsIff(xs, ys, defaultContext, i);
    ZipPrefixStepFails(xs, ys, defaultContext, i, ZipPrefix(xs, ys, defaultContext, i).value);
    ZipFailurePersists(xs, ys, defaultContext, i + 1);
  }

  /** One document yields a sample iff it converts (page info present, offsets
      contiguous, context readable), its context tokens match the joined page
      texts when the default context is on, and its labels match them. The
      conversion error comes first, then the context check, then the labels. */
  lemma SampleOfSucceedsIff(doc: Document, labels: Option<seq<Label>>, defaultContext: bool)
    ensures SampleOf(doc, labels, defaultContext).Success? <==>
      && ConvertOutcomeHolds(doc)
      && Context(doc, true).Success?
      && (defaultContext ==> ContextMatches(Context(doc, true).value, Concat(PageTexts(doc))))
      && (labels.Some? ==> LabelsMatch(labels.value, Concat(PageTexts(doc))))
    ensures Convert(doc, true).Failure? ==> SampleOf(doc, labels, defaultContext) == Failure(Convert(doc, true).error)
    ensures ConvertOutcomeHolds(doc) && defaultContext && !ContextMatches(Context(doc, true).value, Concat(PageTexts(doc))) ==>
      SampleOf(doc, labels, defaultContext) == Failure(ContextSpanMismatch)
    ensures (&& ConvertOutcomeHolds(doc)
             && (defaultContext ==> ContextMatches(Context(doc, true).value, Concat(PageTexts(doc))))
             && labels.Some? && !LabelsMatch(labels.value, Concat(PageTexts(doc)))) ==>
      SampleOf(doc, labels, defaultContext) == Failure(LabelSpanMismatch)
  {
    ConvertOutcome(doc, true);
  }

  /** The document has page info, offsets contiguous from 0 and converts into its page texts. */
  predicate ConvertOutcomeHolds(doc: Document)
  {
    && HasPageInfo(doc)
    && ContiguousAfter(doc, -1)
    && Convert(doc, true).Success?
    && Convert(doc, true).value.0 == PageTexts(doc)
  }

  // ---------------------------------------------------------------------
  // DocumentPipeline._text_to_ids
  // ---------------------------------------------------------------------

  function Shift(xs: seq<int>, offset: int): (r: seq<int>)
    ensures |r| == |xs|
  {
    seq(|xs|, i requires 0 <= i < |xs| => xs[i] + offset)
  }

  /** A chunk with its token starts and ends moved by `offset`, the rest unchanged. */
  function Rebase(chunk: EncodedOutput, offset: int): EncodedOutput
  {
    chunk.(tokenStarts := Shift(chunk.tokenStarts, offset), tokenEnds := Shift(chunk.tokenEnds, offset))
  }

  predicate ChunksWellFormed(chunks: seq<EncodedOutput>)
  {
    forall k :: 0 <= k < |chunks| ==> |chunks[k].tokenStarts| == |chunks[k].tokenEnds|
  }

  function RebaseAll(chunks: seq<EncodedOutput>, offset: int): (r: seq<EncodedOutput>)
    ensures |r| == |chunks|
  {
    seq(|chunks|, k requires 0 <= k < |chunks| => Rebase(chunks[k], offset))
  }

  /** The encoded chunks of all pages, each page's moved by the length of the pages
      before it; `encode` is the per-page encoder of the parent pipeline. */
  function TextToIdsSpec(pages: seq<string>, encode: string -> seq<EncodedOutput>): Result<seq<EncodedOutput>, Error>
  {
    if pages == [] then Success([])
    else match TextToIdsSpec(pages[..|pages| - 1], encode)
      case Failure(e) => Failure(e)
      case Success(out) =>
        var chunks := encode(pages[|pages| - 1]);
        if !ChunksWellFormed(chunks) then Failure(ChunkLengthMismatch)
        else Success(out + RebaseAll(chunks, LengthBefore(pages, |pages| - 1)))
  }

  /** Number of chunks of the pages before page `p`. */
  function ChunksBefore(pages: seq<string>, encode: string -> seq<EncodedOutput>, p: nat): nat
    requires p <= |pages|
  {
    if p == 0 then 0 else ChunksBefore(pages, encode, p - 1) + |encode(pages[p - 1])|
  }

  /** Encodes the page texts and rebases their token offsets (DocumentPipeline._text_to_ids). */
  method TextToIds(pages: seq<string>, encode: string -> seq<EncodedOutput>) returns (r: Result<seq<EncodedOutput>, Error>)
    ensures r == TextToIdsSpec(pages, encode)
  {
    var out: seq<EncodedOutput> := [];
    var offset := 0;
    var p := 0;
    while p < |pages|
      invariant 0 <= p <= |pages|
      invariant offset == LengthBefore(pages, p)
      invariant TextToIdsSpec(pages[..p], encode) == Success(out)
    {
      var page := pages[p];
      var chunks := encode(page);
      assert pages[..p + 1][..p] == pages[..p];
      LengthBeforePrefix(pages, p + 1, p);
      ghost var before := out;
      var k := 0;
      while k < |chunks|
        invariant 0 <= k <= |chunks|
        invariant forall j :: 0 <= j < k ==> |chunks[j].tokenStarts| == |chunks[j].tokenEnds|
        invariant out == before + RebaseAll(chunks, offset)[..k]
      {
        var chunk := chunks[k];
        if |chunk.tokenStarts| != |chunk.tokenEnds| {
          TextToIdsFailurePersists(pages, encode, p + 1);
          return Failure(ChunkLengthMismatch);
        }
        var starts := seq(|chunk.tokenStarts|, i requires 0 <= i < |chunk.tokenStarts| => chunk.tokenStarts[i] + offset);
        var ends := seq(|chunk.tokenEnds|, i requires 0 <= i < |chunk.tokenEnds| => chunk.tokenEnds[i] + offset);
        assert starts == Shift(chunk.tokenStarts, offset) && ends == Shift(chunk.tokenEnds, offset);
        assert RebaseAll(chunks, offset)[..k + 1] == RebaseAll(chunks, offset)[..k] + [Rebase(chunk, offset)];
        out := out + [chunk.(tokenStarts := starts, tokenEnds := ends)];
        k := k + 1;
      }
      assert RebaseAll(chunks, offset)[..k] == RebaseAll(chunks, offset);
      offset := offset + |page|;
      p := p + 1;
    }
    assert pages[..p] == pages;
    r := Success(out);
  }

  lemma {:induction false} TextToIdsFailurePersists(pages: seq<string>, encode: string -> seq<EncodedOutput>, k: nat)
    requires k <= |pages|
    requires TextToIdsSpec(pages[..k], encode).Failure?
    ensures TextToIdsSpec(pages, encode) == TextToIdsSpec(pages[..k], encode)
  {
    if k == |pages| {
      assert pages[..k] == pages;
    } else {
      var init := pages[..|pages| - 1];
      assert init[..k] == pages[..k];
      TextToIdsFailurePersists(init, encode, k);
    }
  }

  lemma {:induction false} ChunksBeforePrefix(pages: seq<string>, encode: string -> seq<EncodedOutput>, m: nat, p: nat)
    requires p <= m <= |pages|
    ensures ChunksBefore(pages[..m], encode, p) == ChunksBefore(pages, encode, p)
  {
    if p > 0 {
      ChunksBeforePrefix(pages, encode, m, p - 1);
    }
  }

  lemma {:induction false} ChunksBeforeMonotone(pages: seq<string>, encode: string -> seq<EncodedOutput>, p: nat, q: nat)
    requires p <= q <= |pages|
    ensures ChunksBefore(pages, encode, p) <= ChunksBefore(pages, encode, q)
  {
    if p < q {
      ChunksBeforeMonotone(pages, encode, p, q - 1);
    }
  }

  /** Rebasing fails exactly when some chunk of some page has token starts and ends
      of different lengths; otherwise it yields every page's chunks in page order. */
  lemma {:induction false} TextToIdsSucceedsIff(pages: seq<string>, encode: string -> seq<EncodedOutput>)
    ensures TextToIdsSpec(pages, encode).Success? <==> forall p :: 0 <= p < |pages| ==> ChunksWellFormed(encode(pages[p]))
    ensures TextToIdsSpec(pages, encode).Success? ==> |TextToIdsSpec(pages, encode).value| == ChunksBefore(pages, encode, |pages|)
  {
    if pages != [] {
      var init := pages[..|pages| - 1];
      TextToIdsSucceedsIff(init, encode);
      ChunksBeforePrefix(pages, encode, |pages| - 1, |pages| - 1);
      assert forall p :: 0 <= p < |init| ==> init[p] == pages[p];
    }
  }

  /** Chunk `k` of page `p` comes out at position `ChunksBefore(p) + k` with every
      token start and end moved by the total length of pages 0..p-1 and its other
      fields unchanged; a start that indexes page `p` then indexes the same
      character of the joined pages. */
  lemma TextToIdsAt(pages: seq<string>, encode: string -> seq<EncodedOutput>, p: nat, k: nat)
    requires TextToIdsSpec(pages, encode).Success?
    requires p < |pages| && k < |encode(pages[p])|
    ensures ChunksBefore(pages, encode, p) + k < |TextToIdsSpec(pages, encode).value|
    ensures
      var out, chunk := TextToIdsSpec(pages, encode).value[ChunksBefore(pages, encode, p) + k], encode(pages[p])[k];
      && out.tokenIds == chunk.tokenIds && out.tokens == chunk.tokens
      && |out.tokenStarts| == |chunk.tokenStarts| == |chunk.tokenEnds| == |out.tokenEnds|
      && (forall i :: 0 <= i < |chunk.tokenStarts| ==> out.tokenStarts[i] == chunk.tokenStarts[i] + LengthBefore(pages, p))
      && (forall i :: 0 <= i < |chunk.tokenEnds| ==> out.tokenEnds[i] == chunk.tokenEnds[i] + LengthBefore(pages, p))
      && (forall i :: 0 <= i < |chunk.tokenStarts| && 0 <= chunk.tokenStarts[i] < |pages[p]| ==>
            out.tokenStarts[i] < |Concat(pages)| && Concat(pages)[out.tokenStarts[i]] == pages[p][chunk.tokenStarts[i]])
  {
    TextToIdsChunk(pages, encode, p, k);
    var chunk := encode(pages[p])[k];
    forall i | 0 <= i < |chunk.tokenStarts| && 0 <= chunk.tokenStarts[i] < |pages[p]|
      ensures LengthBefore(pages, p) + chunk.tokenStarts[i] < |Concat(pages)|
      ensures Concat(pages)[LengthBefore(pages, p) + chunk.tokenStarts[i]] == pages[p][chunk.tokenStarts[i]]
    {
      ConcatAt(pages, p, chunk.tokenStarts[i]);
    }
  }

  /** Chunk `k` of page `p` comes out at position `ChunksBefore(p) + k`, rebased by
      the length of the earlier pages. */
  lemma {:induction false} TextToIdsChunk(pages: seq<string>, encode: string -> seq<EncodedOutput>, p: nat, k: nat)
    requires TextToIdsSpec(pages, encode).Success?
    requires p < |pages| && k < |encode(pages[p])|
    ensures ChunksWellFormed(encode(pages[p]))
    ensures ChunksBefore(pages, encode, p) + k < |TextToIdsSpec(pages, encode).value|
    ensures TextToIdsSpec(pages, encode).value[ChunksBefore(pages, encode, p) + k]
      == Rebase(encode(pages[p])[k], LengthBefore(pages, p))
  {
    var n := |pages|;
    var init := pages[..n - 1];
    TextToIdsSucceedsIff(init, encode);
    TextToIdsSucceedsIff(pages, encode);
    ChunksBeforePrefix(pages, encode, n - 1, n - 1);
    if p < n - 1 {
      TextToIdsChunk(init, encode, p, k);
      ChunksBeforePrefix(pages, encode, n - 1, p);
      ChunksBeforeMonotone(pages, encode, p + 1, n - 1);
      LengthBeforePrefix(pages, n - 1, p);
    }
  }
}
