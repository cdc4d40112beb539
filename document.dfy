// The Markdown report: a title and video information, an optional Mermaid
// timeline with one node per slide, and one section per slide with its
// image and recognised text. The directory creation and the file write are
// collaborators that return an error text on failure; the decimal renderings
// of the timestamps come from `Formats`.

module Document {
  import opened Strings
  import opened Errors
  import opened Files
  import opened Formatting

  const U32: nat := 0x1_0000_0000

  /** `SlideData`. */
  datatype SlideData = SlideData(slideIndex: nat, timestamp: real, imagePath: string, text: string)

  /** `GenerateDocumentCommand`. */
  datatype GenerateDocumentCommand = GenerateDocumentCommand(
    videoId: Id, title: string, url: string, duration: nat, slides: seq<SlideData>,
    outputPath: string, includeTimelineDiagram: bool)

  /** The command's `Default`. */
  function DefaultGenerateDocumentCommand(videoId: Id): (c: GenerateDocumentCommand)
    ensures c.title == "Untitled Video" && c.url == "" && c.duration == 0 && c.slides == []
    ensures c.outputPath == "output.md" && c.includeTimelineDiagram && c.videoId == videoId
  {
    GenerateDocumentCommand(videoId, "Untitled Video", "", 0, [], "output.md", true)
  }

  datatype DocumentGenerated = DocumentGenerated(videoId: Id, filePath: string, slideCount: nat)

  /** The file-system calls the handler makes, in order. */
  datatype FileOp = CreateDirAll(dir: string) | WriteFile(path: string, contents: string)

  /** `slides.len() as u32`. */
  function SlideCount(slides: seq<SlideData>): (n: nat)
    ensures n < U32 && (|slides| < U32 ==> n == |slides|)
  {
    |slides| % U32
  }

  /** Title and the video information block. */
  function Header(cmd: GenerateDocumentCommand): string
  {
    "# " + cmd.title + "\n\n" +
    "## Video Information\n\n" +
    "- **URL:** " + cmd.url + "\n" +
    "- **Duration:** " + NatToString(cmd.duration) + " seconds\n" +
    "- **Extracted Slides:** " + NatToString(SlideCount(cmd.slides)) + "\n\n"
  }

  /** The timeline node of a slide, and the edge from its predecessor when
      its index is above 1. */
  function TimelineEntry(s: SlideData, fmt: Formats): string
  {
    var caption := "Slide " + NatToString(s.slideIndex) + " (" + fmt.fixed0(s.timestamp) + "s)";
    "    S" + NatToString(s.slideIndex) + "[\"" + caption + "\"]\n" +
    (if s.slideIndex > 1 then "    S" + NatToString(s.slideIndex - 1) + " --> S" + NatToString(s.slideIndex) + "\n" else "")
  }

  /** The pieces `f` makes of the slides, concatenated in order. */
  function ConcatMap(slides: seq<SlideData>, f: SlideData -> string): string
  {
    if slides == [] then "" else ConcatMap(slides[..|slides| - 1], f) + f(slides[|slides| - 1])
  }

  function TimelineBody(slides: seq<SlideData>, fmt: Formats): string
  {
    ConcatMap(slides, s => TimelineEntry(s, fmt))
  }

  function Timeline(slides: seq<SlideData>, fmt: Formats): string
  {
    "## Timeline\n\n" + "```mermaid\ngraph LR\n" + TimelineBody(slides, fmt) + "```\n\n"
  }

  /** The image reference: the last path component, or "image.jpg". */
  function ImageName(path: string): (name: string)
    ensures name != "" && '/' !in name
  {
    match FileName(path)
    case Some(n) => n
    case None => "image.jpg"
  }

  /** The text block of a slide: its trimmed text, or a placeholder. */
  function TextBlock(text: string): string
  {
    if Trim(text) == "" then "*No text detected.*\n\n" else Trim(text) + "\n\n"
  }

  function SlideSection(s: SlideData, fmt: Formats): string
  {
    "### Slide " + NatToString(s.slideIndex) + "\n\n" +
    "- **Timestamp:** " + fmt.fixed2(s.timestamp) + "s\n\n" +
    "![Slide " + NatToString(s.slideIndex) + "](" + ImageName(s.imagePath) + ")\n\n" +
    "#### Extracted Text\n\n" +
    TextBlock(s.text) +
    "---\n\n"
  }

  function SlidesDetail(slides: seq<SlideData>, fmt: Formats): string
  {
    ConcatMap(slides, s => SlideSection(s, fmt))
  }

  /** Everything before the slide sections: the header, the timeline when
      the flag asks for it, and the heading of the sections. */
  function Preamble(cmd: GenerateDocumentCommand, fmt: Formats): string
  {
    Header(cmd) + (if cmd.includeTimelineDiagram then Timeline(cmd.slides, fmt) else "") +
    "## Slides Detail\n\n"
  }

  /** The whole document. */
  function Markdown(cmd: GenerateDocumentCommand, fmt: Formats): string
  {
    Preamble(cmd, fmt) + SlidesDetail(cmd.slides, fmt)
  }

  /** The Markdown assembly of `handle_generate_document`: the header, then
      the timeline and the slide sections appended slide by slide in two
      loops. */
  method RenderMarkdown(cmd: GenerateDocumentCommand, fmt: Formats) returns (markdown: string)
    ensures markdown == Markdown(cmd, fmt)
  {
    var header := RenderHeader(cmd);
    var timeline := "";
    if cmd.includeTimelineDiagram {
      timeline := RenderTimeline(cmd.slides, fmt);
    }
    var details := RenderDetails(cmd.slides, fmt);
    markdown := header + timeline + "## Slides Detail\n\n" + details;
  }

  /** The title and the video information block as `handle_generate_document`
      pushes them; `Header` is their specification. */
  method RenderHeader(cmd: GenerateDocumentCommand) returns (header: string)
    ensures header == Header(cmd)
  {
    var slideCount := |cmd.slides| % U32;
    header :=
      "# " + cmd.title + "\n\n" +
      "## Video Information\n\n" +
      "- **URL:** " + cmd.url + "\n" +
      "- **Duration:** " + NatToString(cmd.duration) + " seconds\n" +
      "- **Extracted Slides:** " + NatToString(slideCount) + "\n\n";
  }

  /** The Mermaid timeline around its nodes. */
  method RenderTimeline(slides: seq<SlideData>, fmt: Formats) returns (timeline: string)
    ensures timeline == Timeline(slides, fmt)
  {
    var body := RenderTimelineBody(slides, fmt);
    timeline := "## Timeline\n\n" + "```mermaid\ngraph LR\n" + body + "```\n\n";
  }

  /** The timeline nodes, one (with its edge) per slide, in order. */
  method RenderTimelineBody(slides: seq<SlideData>, fmt: Formats) returns (body: string)
    ensures body == TimelineBody(slides, fmt)
  {
    body := "";
    for i := 0 to |slides|
      invariant body == TimelineBody(slides[..i], fmt)
    {
      var entry := RenderEntry(slides[i], fmt);
      TimelineStep(slides, i, fmt);
      body := body + entry;
    }
    assert slides[..|slides|] == slides;
  }

  /** The lines `handle_generate_document` pushes for one slide of the
      timeline; `TimelineEntry` is their specification. */
  method RenderEntry(slide: SlideData, fmt: Formats) returns (entry: string)
    ensures entry == TimelineEntry(slide, fmt)
  {
    var caption := "Slide " + NatToString(slide.slideIndex) + " (" + fmt.fixed0(slide.timestamp) + "s)";
    entry := "    S" + NatToString(slide.slideIndex) + "[\"" + caption + "\"]\n";
    if slide.slideIndex > 1 {
      entry := entry + "    S" + NatToString(slide.slideIndex - 1) + " --> S" + NatToString(slide.slideIndex) + "\n";
    }
  }

  /** The slide sections, one per slide, in order. */
  method RenderDetails(slides: seq<SlideData>, fmt: Formats) returns (details: string)
    ensures details == SlidesDetail(slides, fmt)
  {
    details := "";
    for i := 0 to |slides|
      invariant details == SlidesDetail(slides[..i], fmt)
    {
      var slide := slides[i];
      var imgName := match FileName(slide.imagePath) case Some(n) => n case None => "image.jpg";
      var trimmed := Trim(slide.text);
      var section :=
        "### Slide " + NatToString(slide.slideIndex) + "\n\n" +
        "- **Timestamp:** " + fmt.fixed2(slide.timestamp) + "s\n\n" +
        "![Slide " + NatToString(slide.slideIndex) + "](" + imgName + ")\n\n" +
        "#### Extracted Text\n\n" +
        (if trimmed == "" then "*No text detected.*\n\n" else trimmed + "\n\n") +
        "---\n\n";
      assert section == SlideSection(slide, fmt);
      SectionStep(slides, i, fmt);
      details := details + section;
    }
    assert slides[..|slides|] == slides;
  }

  lemma ConcatMapStep(slides: seq<SlideData>, i: nat, f: SlideData -> string)
    requires i < |slides|
    ensures ConcatMap(slides[..i + 1], f) == ConcatMap(slides[..i], f) + f(slides[i])
  {
    assert slides[..i + 1][..i] == slides[..i];
  }

  lemma TimelineStep(slides: seq<SlideData>, i: nat, fmt: Formats)
    requires i < |slides|
    ensures TimelineBody(slides[..i + 1], fmt) == TimelineBody(slides[..i], fmt) + TimelineEntry(slides[i], fmt)
  {
    ConcatMapStep(slides, i, s => TimelineEntry(s, fmt));
  }

  lemma SectionStep(slides: seq<SlideData>, i: nat, fmt: Formats)
    requires i < |slides|
    ensures SlidesDetail(slides[..i + 1], fmt) == SlidesDetail(slides[..i], fmt) + SlideSection(slides[i], fmt)
  {
    ConcatMapStep(slides, i, s => SlideSection(s, fmt));
  }

  const NoSlidesMessage: string := "Cannot generate document with no slides"

  /** What `handle_generate_document` returns and the file-system calls it
      makes: `mkdir` and `write` give the error text of a failed call. */
  function Generate(cmd: GenerateDocumentCommand, fmt: Formats, mkdir: string -> Option<string>,
                    write: (string, string) -> Option<string>): (Result<DocumentGenerated>, seq<FileOp>)
  {
    if cmd.slides == [] then (Err(InternalError(NoSlidesMessage)), [])
    else Deliver(cmd, Markdown(cmd, fmt), mkdir, write)
  }

  /** Writing the rendered document `md`: the parent directory first, then
      the file. */
  function Deliver(cmd: GenerateDocumentCommand, md: string, mkdir: string -> Option<string>,
                   write: (string, string) -> Option<string>): (Result<DocumentGenerated>, seq<FileOp>)
  {
    var parent := Parent(cmd.outputPath);
    var made := if parent.Some? then mkdir(parent.value) else None;
    var dirOps := if parent.Some? then [CreateDirAll(parent.value)] else [];
    if made.Some? then (Err(FileSystemError(made.value)), dirOps)
    else
      var written := write(cmd.outputPath, md);
      if written.Some? then (Err(FileSystemError(written.value)), dirOps + [WriteFile(cmd.outputPath, md)])
      else (Ok(DocumentGenerated(cmd.videoId, cmd.outputPath, SlideCount(cmd.slides))),
            dirOps + [WriteFile(cmd.outputPath, md)])
  }

  /** `handle_generate_document`. */
  method HandleGenerateDocument(cmd: GenerateDocumentCommand, fmt: Formats, mkdir: string -> Option<string>,
                                write: (string, string) -> Option<string>)
    returns (r: Result<DocumentGenerated>, ops: seq<FileOp>)
    ensures (r, ops) == Generate(cmd, fmt, mkdir, write)
  {
    if cmd.slides == [] {
      return Err(InternalError(NoSlidesMessage)), [];
    }
    var markdown := RenderMarkdown(cmd, fmt);
    r, ops := WriteDocument(cmd, markdown, mkdir, write);
  }

  /** The file-system part of `handle_generate_document`. */
  method WriteDocument(cmd: GenerateDocumentCommand, markdown: string, mkdir: string -> Option<string>,
                       write: (string, string) -> Option<string>)
    returns (r: Result<DocumentGenerated>, ops: seq<FileOp>)
    ensures (r, ops) == Deliver(cmd, markdown, mkdir, write)
  {
    var slideCount := |cmd.slides| % U32;
    ops := [];
    var parent := Parent(cmd.outputPath);
    if parent.Some? {
      ops := [CreateDirAll(parent.value)];
      var made := mkdir(parent.value);
      if made.Some? {
        return Err(FileSystemError(made.value)), ops;
      }
    }
    ops := ops + [WriteFile(cmd.outputPath, markdown)];
    var written := write(cmd.outputPath, markdown);
    if written.Some? {
      return Err(FileSystemError(written.value)), ops;
    }
    r := Ok(DocumentGenerated(cmd.videoId, cmd.outputPath, slideCount));
  }

  /** No slides: an internal error and no file-system call at all. */
  lemma NoSlidesNoFile(cmd: GenerateDocumentCommand, fmt: Formats, mkdir: string -> Option<string>,
                       write: (string, string) -> Option<string>)
    requires cmd.slides == []
    ensures Generate(cmd, fmt, mkdir, write) == (Err(InternalError("Cannot generate document with no slides")), [])
  {
  }

  /** Success means the document was written, whole, to the output path, and
      the event names that path and counts the slides. */
  lemma SuccessWritesDocument(cmd: GenerateDocumentCommand, fmt: Formats, mkdir: string -> Option<string>,
                              write: (string, string) -> Option<string>)
    requires Generate(cmd, fmt, mkdir, write).0.Ok?
    ensures var (r, ops) := Generate(cmd, fmt, mkdir, write);
      cmd.slides != [] && r.value.filePath == cmd.outputPath && r.value.videoId == cmd.videoId &&
      r.value.slideCount == SlideCount(cmd.slides) &&
      |ops| >= 1 && ops[|ops| - 1] == WriteFile(cmd.outputPath, Markdown(cmd, fmt)) &&
      write(cmd.outputPath, Markdown(cmd, fmt)).None?
  {
  }

  /** The document opens with the title line. */
  lemma StartsWithTitle(cmd: GenerateDocumentCommand, fmt: Formats)
    ensures StartsWith(Markdown(cmd, fmt), "# " + cmd.title + "\n\n")
  {
    var t := "# " + cmd.title + "\n\n";
    var md := Markdown(cmd, fmt);
    assert md == t + (md[|t|..]);
  }

  /** The timeline is present exactly as the flag says: with it, the Mermaid
      graph follows the header; without it, the slide details do. */
  lemma TimelineByFlag(cmd: GenerateDocumentCommand, fmt: Formats)
    ensures cmd.includeTimelineDiagram ==>
      Contains(Markdown(cmd, fmt), "```mermaid\ngraph LR\n") &&
      StartsWith(Markdown(cmd, fmt), Header(cmd) + "## Timeline\n\n")
    ensures !cmd.includeTimelineDiagram ==>
      Markdown(cmd, fmt) == Header(cmd) + "## Slides Detail\n\n" + SlidesDetail(cmd.slides, fmt)
  {
    if cmd.includeTimelineDiagram {
      TimelineShown(cmd, fmt);
    } else {
      TimelineHidden(cmd, fmt);
    }
  }

  lemma TimelineShown(cmd: GenerateDocumentCommand, fmt: Formats)
    requires cmd.includeTimelineDiagram
    ensures Contains(Markdown(cmd, fmt), "```mermaid\ngraph LR\n")
    ensures StartsWith(Markdown(cmd, fmt), Header(cmd) + "## Timeline\n\n")
  {
    MermaidAfterHeader(Header(cmd), TimelineBody(cmd.slides, fmt), SlidesDetail(cmd.slides, fmt));
  }

  lemma TimelineHidden(cmd: GenerateDocumentCommand, fmt: Formats)
    requires !cmd.includeTimelineDiagram
    ensures Markdown(cmd, fmt) == Header(cmd) + "## Slides Detail\n\n" + SlidesDetail(cmd.slides, fmt)
  {
  }

  lemma MermaidAfterHeader(h: string, body: string, details: string)
    ensures var md := h + ("## Timeline\n\n" + "```mermaid\ngraph LR\n" + body + "```\n\n") + "## Slides Detail\n\n" + details;
      Contains(md, "```mermaid\ngraph LR\n") && StartsWith(md, h + "## Timeline\n\n")
  {
    var a := h + "## Timeline\n\n";
    var b := body + "```\n\n" + "## Slides Detail\n\n" + details;
    var md := h + ("## Timeline\n\n" + "```mermaid\ngraph LR\n" + body + "```\n\n") + "## Slides Detail\n\n" + details;
    assert md == a + "```mermaid\ngraph LR\n" + b;
    ContainsMiddle(a, "```mermaid\ngraph LR\n", b);
    assert md[..|a|] == a;
  }

  /** Sections follow the input order: the sections of `a + b` are those of
      `a` followed by those of `b`, and likewise for the timeline. */
  lemma {:induction false} SectionsInOrder(a: seq<SlideData>, b: seq<SlideData>, fmt: Formats)
    ensures SlidesDetail(a + b, fmt) == SlidesDetail(a, fmt) + SlidesDetail(b, fmt)
    ensures TimelineBody(a + b, fmt) == TimelineBody(a, fmt) + TimelineBody(b, fmt)
  {
    ConcatMapAppend(a, b, s => SlideSection(s, fmt));
    ConcatMapAppend(a, b, s => TimelineEntry(s, fmt));
  }

  lemma {:induction false} ConcatMapAppend(a: seq<SlideData>, b: seq<SlideData>, f: SlideData -> string)
    ensures ConcatMap(a + b, f) == ConcatMap(a, f) + ConcatMap(b, f)
  {
    if b == [] {
      assert a + b == a;
    } else {
      var b' := b[..|b| - 1];
      assert (a + b)[..|a + b| - 1] == a + b';
      assert (a + b)[|a + b| - 1] == b[|b| - 1];
      ConcatMapAppend(a, b', f);
    }
  }

  /** Every slide section ends with the rule line, shows the image by its
      file name, and shows the trimmed text or the placeholder. */
  lemma SectionShape(s: SlideData, fmt: Formats)
    ensures EndsWith(SlideSection(s, fmt), "---\n\n")
    ensures Contains(SlideSection(s, fmt), "](" + ImageName(s.imagePath) + ")")
    ensures Trim(s.text) == "" ==> Contains(SlideSection(s, fmt), "*No text detected.*")
    ensures Trim(s.text) != "" ==> Contains(SlideSection(s, fmt), Trim(s.text) + "\n\n")
  {
    var sec := SlideSection(s, fmt);
    var pre := "### Slide " + NatToString(s.slideIndex) + "\n\n" +
               "- **Timestamp:** " + fmt.fixed2(s.timestamp) + "s\n\n" +
               "![Slide " + NatToString(s.slideIndex) + "](" + ImageName(s.imagePath) + ")\n\n" +
               "#### Extracted Text\n\n";
    assert sec == pre + TextBlock(s.text) + "---\n\n";
    var img := "](" + ImageName(s.imagePath) + ")";
    var before := "### Slide " + NatToString(s.slideIndex) + "\n\n" +
                  "- **Timestamp:** " + fmt.fixed2(s.timestamp) + "s\n\n" +
                  "![Slide " + NatToString(s.slideIndex);
    var after := "\n\n" + "#### Extracted Text\n\n" + TextBlock(s.text) + "---\n\n";
    assert sec == before + img + after;
    ContainsMiddle(before, img, after);
    if Trim(s.text) == "" {
      ContainsMiddle(pre, "*No text detected.*", "\n\n" + "---\n\n");
      assert sec == pre + "*No text detected.*" + ("\n\n" + "---\n\n");
    } else {
      ContainsMiddle(pre, Trim(s.text) + "\n\n", "---\n\n");
    }
  }

  /** The sections around the one of slide `k`. */
  lemma SectionSplit(sl: seq<SlideData>, fmt: Formats, k: nat)
    requires k < |sl|
    ensures SlidesDetail(sl, fmt) == SlidesDetail(sl[..k], fmt) + SlideSection(sl[k], fmt) + SlidesDetail(sl[k + 1..], fmt)
  {
    assert sl == sl[..k] + [sl[k]] + sl[k + 1..];
    SectionsInOrder(sl[..k] + [sl[k]], sl[k + 1..], fmt);
    SectionsInOrder(sl[..k], [sl[k]], fmt);
    assert SlidesDetail([sl[k]], fmt) == SlideSection(sl[k], fmt) by {
      assert [sl[k]][..0] == [];
    }
  }

  /** A slide's section appears in the document. */
  lemma SectionInDocument(cmd: GenerateDocumentCommand, fmt: Formats, k: nat)
    requires k < |cmd.slides|
    ensures Contains(Markdown(cmd, fmt), SlideSection(cmd.slides[k], fmt))
  {
    SectionAfter(Preamble(cmd, fmt), cmd.slides, fmt, k);
  }

  /** Whatever precedes the sections, slide `k`'s section follows it. */
  lemma SectionAfter(p: string, sl: seq<SlideData>, fmt: Formats, k: nat)
    requires k < |sl|
    ensures Contains(p + SlidesDetail(sl, fmt), SlideSection(sl[k], fmt))
  {
    SectionSplit(sl, fmt, k);
    var pre := p + SlidesDetail(sl[..k], fmt);
    var sec := SlideSection(sl[k], fmt);
    var post := SlidesDetail(sl[k + 1..], fmt);
    Regroup(p, SlidesDetail(sl[..k], fmt), sec, post);
    ContainsMiddle(pre, sec, post);
  }

  lemma Regroup(p: string, a: string, b: string, c: string)
    ensures p + (a + b + c) == p + a + b + c
  {
  }

  /** The timeline links each slide above index 1 to the index before it,
      and the first index has no incoming edge. */
  lemma TimelineEdge(s: SlideData, fmt: Formats)
    ensures s.slideIndex > 1 ==>
      EndsWith(TimelineEntry(s, fmt), "    S" + NatToString(s.slideIndex - 1) + " --> S" + NatToString(s.slideIndex) + "\n")
    ensures s.slideIndex <= 1 ==>
      TimelineEntry(s, fmt) == "    S" + NatToString(s.slideIndex) + "[\"Slide " + NatToString(s.slideIndex) +
                               " (" + fmt.fixed0(s.timestamp) + "s)\"]\n"
  {
  }
}
