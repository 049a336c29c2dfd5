/** The report-to-PDF text extraction: an HTML parser that, inside `<body>`,
    keeps a stack of the open tags and records each non-blank text together
    with the `/`-joined tag path; the recorded fragments become paragraphs whose
    style is chosen from that path. */
module PdfGenerator {
  import opened Common

  /** What the HTML tokenizer hands the extractor, in document order. */
  datatype Token = Start(tag: string) | End(tag: string) | Data(d: string)

  /** A recorded fragment: the tag path and the stripped text. */
  datatype Fragment = Fragment(tags: string, text: string)

  /** The extractor's fields: `in_body`, `current_style_tags` and `fed`. */
  datatype Extract = Extract(inBody: bool, stack: seq<string>, fed: seq<Fragment>)

  const Initial: Extract := Extract(false, [], [])

  /** The effect of one handler call. */
  function Step(s: Extract, t: Token): Extract {
    match t
    case Start(tag) =>
      if tag == "body" then s.(inBody := true)
      else if s.inBody then s.(stack := s.stack + [tag])
      else s
    case End(tag) =>
      if tag == "body" then s.(inBody := false)
      else if s.inBody && s.stack != [] && s.stack[|s.stack| - 1] == tag then
        s.(stack := s.stack[..|s.stack| - 1])
      else s
    case Data(d) =>
      if s.inBody && Strip(d) != [] then s.(fed := s.fed + [Fragment(Join("/", s.stack), Strip(d))])
      else s
  }

  /** The handler calls of a whole document, in order. */
  function Run(s: Extract, ts: seq<Token>): Extract
    decreases |ts|
  {
    if ts == [] then s else Run(Step(s, ts[0]), ts[1..])
  }

  class Extractor {
    var inBody: bool
    var stack: seq<string>
    var fed: seq<Fragment>

    function State(): Extract
      reads this
    {
      Extract(inBody, stack, fed)
    }

    constructor()
      ensures State() == Initial
    {
      inBody := false;
      stack := [];
      fed := [];
    }

    /** `handle_starttag`: `<body>` opens the body; inside it every other tag is
        pushed. */
    method HandleStartTag(tag: string)
      modifies this
      ensures State() == Step(old(State()), Start(tag))
    {
      if tag == "body" {
        inBody := true;
        return;
      }
      if inBody {
        stack := stack + [tag];
      }
    }

    /** `handle_endtag`: `</body>` closes the body; inside it the top of the stack
        is popped only when it is the tag being closed. */
    method HandleEndTag(tag: string)
      modifies this
      ensures State() == Step(old(State()), End(tag))
    {
      if tag == "body" {
        inBody := false;
        return;
      }
      if inBody && stack != [] && stack[|stack| - 1] == tag {
        stack := stack[..|stack| - 1];
      }
    }

    /** `handle_data`: inside the body, non-blank text is recorded stripped, with
        the tag path. */
    method HandleData(d: string)
      modifies this
      ensures State() == Step(old(State()), Data(d))
    {
      if inBody {
        var text := Strip(d);
        if text != [] {
          fed := fed + [Fragment(Join("/", stack), text)];
        }
      }
    }

    /** `feed`: the tokens of a document are handled in order. */
    method Feed(ts: seq<Token>)
      modifies this
      ensures State() == Run(old(State()), ts)
    {
      var i := 0;
      while i < |ts|
        invariant 0 <= i <= |ts|
        invariant Run(State(), ts[i..]) == Run(old(State()), ts)
      {
        assert ts[i..][1..] == ts[i + 1..];
        match ts[i] {
          case Start(tag) => HandleStartTag(tag);
          case End(tag) => HandleEndTag(tag);
          case Data(d) => HandleData(d);
        }
        i := i + 1;
      }
    }
  }

  // ---------------------------------------------------------------------------
  // Paragraphs

  datatype Style = H2 | H3 | P

  datatype Paragraph = Paragraph(text: string, style: Style)

  /** The style of a fragment: `h2` if the path mentions it, else `h3` if it
      does, else the body style. The test is a substring test on the joined
      path. */
  function StyleOf(tags: string): (r: Style)
    ensures r == H2 <==> Contains(tags, "h2")
    ensures r == H3 <==> !Contains(tags, "h2") && Contains(tags, "h3")
  {
    if Find(tags, "h2") then H2 else if Find(tags, "h3") then H3 else P
  }

  /** The paragraph for one fragment; a `strong` in the path makes it bold. */
  function ParagraphOf(f: Fragment): (r: Paragraph)
    ensures r.style == StyleOf(f.tags)
    ensures Contains(f.tags, "strong") ==> r.text == "<b>" + f.text + "</b>"
    ensures !Contains(f.tags, "strong") ==> r.text == f.text
  {
    Paragraph(if Find(f.tags, "strong") then "<b>" + f.text + "</b>" else f.text, StyleOf(f.tags))
  }

  /** The paragraph loop of `html_to_flowables`: one paragraph per fragment, in
      order. */
  method Paragraphs(fed: seq<Fragment>) returns (r: seq<Paragraph>)
    ensures |r| == |fed|
    ensures forall k :: 0 <= k < |fed| ==> r[k] == ParagraphOf(fed[k])
  {
    r := [];
    for i := 0 to |fed|
      invariant |r| == i
      invariant forall k :: 0 <= k < i ==> r[k] == ParagraphOf(fed[k])
    {
      r := r + [ParagraphOf(fed[i])];
    }
  }

  /** `html_to_flowables` on a document's tokens. */
  method HtmlToFlowables(ts: seq<Token>) returns (r: seq<Paragraph>)
    ensures |r| == |Run(Initial, ts).fed|
    ensures forall k :: 0 <= k < |r| ==> r[k] == ParagraphOf(Run(Initial, ts).fed[k])
  {
    var parser := new Extractor();
    parser.Feed(ts);
    r := Paragraphs(parser.fed);
  }

  // ---------------------------------------------------------------------------
  // Properties of the extractor

  /** Outside the body only `<body>` does anything. */
  lemma OutsideBody(s: Extract, t: Token)
    requires !s.inBody && t != Start("body")
    ensures Step(s, t).stack == s.stack && Step(s, t).fed == s.fed
  {
  }

  /** `body` is never pushed, so it never appears on the stack. */
  lemma {:induction false} BodyNeverPushed(s: Extract, ts: seq<Token>)
    requires "body" !in s.stack
    ensures "body" !in Run(s, ts).stack
    decreases |ts|
  {
    if ts != [] {
      var n := Step(s, ts[0]);
      assert forall x :: x in n.stack ==> x in s.stack || (ts[0].Start? && x == ts[0].tag && x != "body");
      BodyNeverPushed(n, ts[1..]);
    }
  }

  /** An end tag pops exactly when it names the top of the stack inside the
      body; otherwise the stack is unchanged. */
  lemma EndTagPops(s: Extract, tag: string)
    requires tag != "body"
    ensures var n := Step(s, End(tag));
      if s.inBody && s.stack != [] && s.stack[|s.stack| - 1] == tag
      then s.stack == n.stack + [tag] else n.stack == s.stack
  {
  }

  /** An unclosed tag such as `<br>` stays on top and keeps its enclosing tag
      from being closed. */
  lemma UnclosedBlocks(s: Extract, outer: string, inner: string)
    requires s.inBody && outer != "body" && inner != "body" && inner != outer
    ensures Run(s, [Start(outer), Start(inner), End(outer)]).stack == s.stack + [outer, inner]
  {
    var ts := [Start(outer), Start(inner), End(outer)];
    var s1 := Step(s, Start(outer));
    var s2 := Step(s1, Start(inner));
    assert s2.stack == s.stack + [outer, inner];
    assert Run(s, ts) == Run(s1, ts[1..]);
    assert ts[1..][1..] == [End(outer)];
    assert Run(s1, ts[1..]) == Run(s2, [End(outer)]);
    assert Run(s2, [End(outer)]) == Run(Step(s2, End(outer)), []);
  }

  /** Recorded fragments are never lost and always hold non-blank text. */
  lemma {:induction false} FedGrows(s: Extract, ts: seq<Token>)
    requires forall k :: 0 <= k < |s.fed| ==> s.fed[k].text != []
    ensures |s.fed| <= |Run(s, ts).fed| && Run(s, ts).fed[..|s.fed|] == s.fed
    ensures forall k :: 0 <= k < |Run(s, ts).fed| ==> Run(s, ts).fed[k].text != []
    decreases |ts|
  {
    if ts != [] {
      var n := Step(s, ts[0]);
      assert |s.fed| <= |n.fed| && n.fed[..|s.fed|] == s.fed;
      FedGrows(n, ts[1..]);
    }
  }

  /** A text inside the body is recorded with the path of the open tags. */
  lemma DataRecorded(s: Extract, d: string)
    requires s.inBody && Strip(d) != []
    ensures Step(s, Data(d)).fed == s.fed + [Fragment(Join("/", s.stack), Strip(d))]
  {
  }

  // ---------------------------------------------------------------------------
  // Properties of the paragraphs

  /** Every tag on the stack can be found in the joined path. */
  lemma {:induction false} JoinHasItem(sep: string, xs: seq<string>, k: nat)
    requires k < |xs|
    ensures Contains(Join(sep, xs), xs[k])
    decreases |xs|
  {
    assert OccursAt(xs[k], xs[k], 0);
    if |xs| > 1 {
      var rest := Join(sep, xs[1..]);
      assert Join(sep, xs) == xs[0] + (sep + rest) + "";
      if k == 0 {
        ContainsOfPart("", xs[0], sep + rest, xs[0]);
        assert "" + xs[0] + (sep + rest) == Join(sep, xs);
      } else {
        JoinHasItem(sep, xs[1..], k - 1);
        ContainsOfPart(xs[0] + sep, rest, "", xs[k]);
        assert xs[0] + sep + rest + "" == Join(sep, xs);
      }
    }
  }

  /** Text inside an open `h2` is a heading of the second level, text inside an
      open `strong` is bold. */
  lemma NestedStyles(stack: seq<string>, text: string)
    ensures "h2" in stack ==> ParagraphOf(Fragment(Join("/", stack), text)).style == H2
    ensures "strong" in stack ==> ParagraphOf(Fragment(Join("/", stack), text)).text == "<b>" + text + "</b>"
  {
    if "h2" in stack {
      var k :| 0 <= k < |stack| && stack[k] == "h2";
      JoinHasItem("/", stack, k);
    }
    if "strong" in stack {
      var k :| 0 <= k < |stack| && stack[k] == "strong";
      JoinHasItem("/", stack, k);
    }
  }
}
