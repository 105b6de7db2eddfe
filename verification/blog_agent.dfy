/** The string handling of the HustleOS blog agent (blog_agent.py): the
    prompt sent to the text-generation model, the guard on the topic, the
    image line prepended to the generated body, and the Markdown file (name
    and contents) that save_file writes. The two model calls, the clock and
    the filesystem are outside the model: their answers arrive as
    parameters, and the requests and the file write are recorded as
    effects. */
module BlogAgent {
  import opened Wrappers
  import opened PyStr
  import opened Calendar

  /** The generated post, as parsed from the model's JSON reply. */
  datatype BlogPost = BlogPost(
    title: string,
    metaDescription: string,
    keywords: seq<string>,
    content: string,
    cta: string)

  // ---------------------------------------------------------------------
  // get_prompt: the fixed template with the topic in its one slot.
  // Longer lines are kept as concatenations of short literals so that
  // facts about their characters can be checked literal by literal.

  const Persona: string :=
    "You are a top-tier SEO content writer. " + "Write a 2000-word blog post for "
    + "entrepreneurs aged 30\U{2013}45."
  const GuidelinesHeading: string := "Guidelines:"
  const PrimaryKeywordRule: string := "- Use primary keyword 3\U{2013}4 times " + "in quotes"
  const SecondaryKeywordRule: string := "- Use secondary keywords as H2 " + "(also in quotes)"
  const ToneRule: string := "- Friendly, clear tone"
  const FormatRule: string := "- Use Markdown format"
  const ExamplesRule: string := "- Mention tools, examples, stats"
  const JargonRule: string := "- No technical jargon or AI mention"

  /** Everything in the template before the topic line. */
  const PromptIntro: string :=
    "\n" + Persona + "\n\n" + GuidelinesHeading + "\n" + PrimaryKeywordRule + "\n"
    + SecondaryKeywordRule + "\n" + ToneRule + "\n" + FormatRule + "\n" + ExamplesRule + "\n"
    + JargonRule + "\n\n"

  const TopicOpen: string := "Topic: \""
  const TopicClose: string := "\""

  const JsonInstruction: string := "Respond only in JSON:"
  const TitleField: string := "  \"title\": \"...\","
  const MetaField: string := "  \"meta_description\": \"...\","
  const KeywordsField: string := "  \"keywords\": [\"...\", \"...\"],"
  const ContentField: string := "  \"content\": \"...\","
  const CtaField: string := "  \"cta\": \"...\""

  /** Everything in the template after the topic line. */
  const PromptOutro: string :=
    "\n\n" + JsonInstruction + "\n{\n" + TitleField + "\n" + MetaField + "\n" + KeywordsField + "\n"
    + ContentField + "\n" + CtaField + "\n}\n"

  /** The line of the prompt that names the topic. */
  function TopicLine(topic: string): string {
    TopicOpen + topic + TopicClose
  }

  /** get_prompt(topic): the template with the topic line in its slot. The
      topic line occurs in it exactly once, right after the fixed
      introduction, whatever the topic contains. */
  function Prompt(topic: string): (p: string)
    ensures forall q :: OccursAt(p, TopicLine(topic), q) <==> q == |PromptIntro|
  {
    TemplateLacksT();
    OccursOnlyBetween(PromptIntro, TopicLine(topic), PromptOutro);
    PromptIntro + TopicLine(topic) + PromptOutro
  }

  const ImagePromptLead: string := "Eye-catching blog illustration: "

  /** The prompt of the image request (generate_image): the fixed lead,
      then the topic, which can be read back from the end. */
  function ImagePrompt(topic: string): (p: string)
    ensures |p| == |ImagePromptLead| + |topic|
    ensures p[..|ImagePromptLead|] == ImagePromptLead && p[|ImagePromptLead|..] == topic
  {
    ImagePromptLead + topic
  }

  lemma PersonaLacksT()
    ensures 'T' !in Persona
  {
  }

  lemma KeywordRulesLackT()
    ensures 'T' !in PrimaryKeywordRule && 'T' !in SecondaryKeywordRule
  {
  }

  lemma StyleRulesLackT()
    ensures 'T' !in GuidelinesHeading && 'T' !in ToneRule && 'T' !in FormatRule
  {
  }

  lemma ContentRulesLackT()
    ensures 'T' !in ExamplesRule && 'T' !in JargonRule
  {
  }

  lemma JsonHeadLacksT()
    ensures 'T' !in JsonInstruction && 'T' !in TitleField && 'T' !in MetaField
  {
  }

  lemma JsonFieldsLackT()
    ensures 'T' !in KeywordsField && 'T' !in ContentField && 'T' !in CtaField
  {
  }

  /** The only 'T' of the template is the one that opens the topic line. */
  lemma {:induction false} TemplateLacksT()
    ensures 'T' !in PromptIntro && 'T' !in PromptOutro
  {
    PersonaLacksT();
    KeywordRulesLackT();
    StyleRulesLackT();
    ContentRulesLackT();
    JsonHeadLacksT();
    JsonFieldsLackT();
  }

  /** If the topic line occurs at p0 and again at a later q, then shifting
      by q - p0 repeats the text, so the 'T' that opens the line shows up
      again somewhere past the end of the first occurrence. */
  lemma {:induction false} LaterOccurrenceRepeatsT(p: string, line: string, p0: nat, q: nat)
    requires OccursAt(p, line, p0) && OccursAt(p, line, q) && p0 < q
    requires |line| > 0 && line[0] == 'T'
    ensures exists j :: p0 + |line| <= j < q + |line| && p[j] == 'T'
  {
    var d := q - p0;
    var j := p0;
    assert p[j] == 'T' by { assert p[p0..p0 + |line|][0] == p[p0]; }
    while j < p0 + |line|
      invariant p0 <= j < p0 + |line| + d
      invariant p[j] == 'T'
      decreases p0 + |line| - j
    {
      assert p[j + d] == line[j - p0] by { assert p[q..q + |line|][j - p0] == p[j + d]; }
      assert p[j] == line[j - p0] by { assert p[p0..p0 + |line|][j - p0] == p[j]; }
      j := j + d;
    }
  }

  /** A line that starts with 'T', put between two texts without 'T',
      occurs exactly once in the result: right after the first text. */
  lemma {:induction false} OccursOnlyBetween(intro: string, line: string, outro: string)
    requires 'T' !in intro && 'T' !in outro
    requires |line| > 0 && line[0] == 'T'
    ensures forall q :: OccursAt(intro + line + outro, line, q) <==> q == |intro|
  {
    var p, p0 := intro + line + outro, |intro|;
    assert p[p0..p0 + |line|] == line;
    assert OccursAt(p, line, p0);
    forall q | OccursAt(p, line, q) ensures q == p0 {
      if q > p0 {
        LaterOccurrenceRepeatsT(p, line, p0, q);
      }
    }
  }

  /** The template around the topic is unchanged: the prompt is the fixed
      introduction, then the topic line, then the fixed instructions for
      the JSON reply; the topic line is the topic between `Topic: "` and
      `"`, so the topic can be read back from the prompt. */
  lemma PromptFrame(topic: string)
    ensures |Prompt(topic)| == |PromptIntro| + |TopicOpen| + |topic| + |TopicClose| + |PromptOutro|
    ensures Prompt(topic)[..|PromptIntro|] == PromptIntro
    ensures Prompt(topic)[|PromptIntro|..|PromptIntro| + |TopicLine(topic)|] == TopicLine(topic)
    ensures Prompt(topic)[|PromptIntro| + |TopicLine(topic)|..] == PromptOutro
    ensures TopicLine(topic)[..|TopicOpen|] == TopicOpen
    ensures TopicLine(topic)[|TopicOpen|..|TopicOpen| + |topic|] == topic
    ensures TopicLine(topic)[|TopicOpen| + |topic|..] == TopicClose
  {
    ThreePartSlices(PromptIntro, TopicLine(topic), PromptOutro);
    ThreePartSlices(TopicOpen, topic, TopicClose);
  }

  lemma ThreePartSlices(a: string, b: string, c: string)
    ensures (a + b + c)[..|a|] == a && (a + b + c)[|a|..|a| + |b|] == b && (a + b + c)[|a| + |b|..] == c
  {
  }

  /** Different topics give different prompts. */
  lemma PromptInjective(t1: string, t2: string)
    requires Prompt(t1) == Prompt(t2)
    ensures t1 == t2
  {
    PromptFrame(t1);
    PromptFrame(t2);
    assert TopicLine(t1) == TopicLine(t2);
  }

  // ---------------------------------------------------------------------
  // The guard on the topic: `if not topic.strip()` warns and stops.

  /** not topic.strip(): true exactly when the topic is empty or all
      whitespace. */
  function IsBlankTopic(topic: string): (blank: bool)
    ensures blank <==> forall i :: 0 <= i < |topic| ==> IsSpace(topic[i])
  {
    StripEmptyIffAllSpace(topic);
    Strip(topic) == ""
  }

  // ---------------------------------------------------------------------
  // The illustration line put in front of the generated body.

  function ImageMarkdown(url: string): string {
    "![Blog Illustration](" + url + ")\n\n"
  }

  /** blog['content'] = image line + blog['content']: the old body is kept
      whole after the image line and no other field changes. */
  function WithImage(post: BlogPost, url: string): (r: BlogPost)
    ensures r.title == post.title && r.metaDescription == post.metaDescription
    ensures r.keywords == post.keywords && r.cta == post.cta
    ensures |r.content| == |ImageMarkdown(url)| + |post.content|
    ensures r.content[..|ImageMarkdown(url)|] == ImageMarkdown(url)
    ensures r.content[|ImageMarkdown(url)|..] == post.content
  {
    post.(content := ImageMarkdown(url) + post.content)
  }

  // ---------------------------------------------------------------------
  // save_file: the path and the Markdown text.

  /** data['title'].lower().replace(" ", "-"). */
  function Slug(title: string): (slug: string)
    ensures |slug| == |title|
    ensures forall i :: 0 <= i < |title| ==>
      slug[i] == (if title[i] == ' ' then '-' else LowerChar(title[i]))
    ensures ' ' !in slug
  {
    ReplaceChar(Lower(title), ' ', '-')
  }

  /** A slug is its own slug. */
  lemma SlugIdempotent(title: string)
    ensures Slug(Slug(title)) == Slug(title)
  {
    var s := Slug(title);
    assert forall i :: 0 <= i < |s| ==> LowerChar(s[i]) == s[i];
  }

  const BlogDir: string := "blogs/"
  const MarkdownExt: string := ".md"

  /** f"blogs/{date:%Y-%m-%d}-{slug}.md". */
  function FileName(today: Date, slug: string): (path: string)
    requires ValidDate(today)
    ensures |path| == |BlogDir| + 11 + |slug| + |MarkdownExt|
  {
    BlogDir + IsoDate(today) + "-" + slug + MarkdownExt
  }

  /** Reads the date and the slug back out of a saved file's path. */
  function ParseFileName(path: string): (r: Option<(Date, string)>)
    ensures r.Some? ==> ValidDate(r.value.0)
  {
    if |path| >= 20 && path[..6] == BlogDir && path[16] == '-' && path[|path| - 3..] == MarkdownExt then
      match ParseIsoDate(path[6..16])
      case Some(d) => Some((d, path[17..|path| - 3]))
      case None => None
    else None
  }

  /** Every path the parser accepts is the path of the date and slug it
      returns. */
  lemma ParseFileNameSound(path: string)
    requires ParseFileName(path).Some?
    ensures FileName(ParseFileName(path).value.0, ParseFileName(path).value.1) == path
  {
    ParseIsoDateSound(path[6..16]);
    assert path == path[..6] + path[6..16] + "-" + path[17..|path| - 3] + path[|path| - 3..];
  }

  /** The path names its date and slug exactly. */
  lemma FileNameRoundTrip(today: Date, slug: string)
    requires ValidDate(today)
    ensures ParseFileName(FileName(today, slug)) == Some((today, slug))
  {
    var path := FileName(today, slug);
    var stamp := IsoDate(today);
    assert path == BlogDir + stamp + "-" + slug + MarkdownExt;
    assert path[..6] == BlogDir;
    assert path[6..16] == stamp;
    assert path[17..|path| - 3] == slug;
    assert path[|path| - 3..] == MarkdownExt;
    IsoDateRoundTrip(today);
  }

  const HeadingMark: string := "# "
  const MetaLabel: string := "**Meta Description:** "
  const KeywordsLabel: string := "**Keywords:** "
  const KeywordSeparator: string := ", "
  const SectionBreak: string := "\n\n"
  const HorizontalRule: string := "\n\n---\n\n"
  const CtaLabel: string := "**CTA:** "

  /** The first f.write: the title as a level-one heading. */
  function HeadingSection(post: BlogPost): string {
    HeadingMark + post.title + SectionBreak
  }

  /** The second f.write: the bold meta description line. */
  function MetaSection(post: BlogPost): string {
    MetaLabel + post.metaDescription + SectionBreak
  }

  /** The third f.write: the keywords joined by ", ". */
  function KeywordsSection(post: BlogPost): string {
    KeywordsLabel + Join(KeywordSeparator, post.keywords) + SectionBreak
  }

  /** The fourth f.write: the body, a horizontal rule and the bold CTA. */
  function ClosingSection(post: BlogPost): string {
    post.content + HorizontalRule + CtaLabel + post.cta
  }

  /** The whole file: the four sections in the order they are written. */
  function Render(post: BlogPost): (text: string)
    ensures |text| >= |HeadingMark + post.title|
    ensures text[..|HeadingMark + post.title|] == HeadingMark + post.title
    ensures |text| >= |CtaLabel + post.cta|
    ensures text[|text| - |CtaLabel + post.cta|..] == CtaLabel + post.cta
  {
    var body := HeadingSection(post) + MetaSection(post) + KeywordsSection(post);
    var text := body + ClosingSection(post);
    StartsWith(HeadingMark + post.title, SectionBreak, MetaSection(post) + KeywordsSection(post));
    StartsWith(body, ClosingSection(post), "");
    EndsWith(post.content + HorizontalRule, CtaLabel, post.cta);
    EndsWith(body, ClosingSection(post), "");
    text
  }

  /** The first |a| characters of a + b + c are a. */
  lemma StartsWith(a: string, b: string, c: string)
    ensures (a + b) + c == a + (b + c)
    ensures |a + b + c| >= |a| && (a + b + c)[..|a|] == a
  {
  }

  /** The last |b| + |c| characters of a + b + c are b + c. */
  lemma EndsWith(a: string, b: string, c: string)
    ensures (a + b) + c == a + (b + c)
    ensures (a + b + c)[|a|..] == b + c
  {
  }

  /** Where the body starts in the rendered file. */
  function BodyOffset(post: BlogPost): nat {
    |HeadingSection(post)| + |MetaSection(post)| + |KeywordsSection(post)|
  }

  /** The body appears whole at its offset, followed by the rule and the
      CTA. */
  lemma RenderBodyAt(post: BlogPost)
    ensures BodyOffset(post) + |post.content| <= |Render(post)|
    ensures Render(post)[BodyOffset(post)..BodyOffset(post) + |post.content|] == post.content
    ensures Render(post)[BodyOffset(post) + |post.content|..] == HorizontalRule + CtaLabel + post.cta
  {
    var head := HeadingSection(post) + MetaSection(post) + KeywordsSection(post);
    Regroup(post.content, HorizontalRule, CtaLabel, post.cta);
    ThreePartSlices(head, post.content, HorizontalRule + CtaLabel + post.cta);
  }

  /** Adding the illustration inserts exactly the image line at the start
      of the body: the text before the body and everything from the old
      body on are as they were, so the image is the first body line. */
  lemma RenderWithImage(post: BlogPost, url: string)
    ensures BodyOffset(WithImage(post, url)) == BodyOffset(post)
    ensures Render(WithImage(post, url))
      == Render(post)[..BodyOffset(post)] + ImageMarkdown(url) + Render(post)[BodyOffset(post)..]
  {
    var augmented := WithImage(post, url);
    var head := HeadingSection(post) + MetaSection(post) + KeywordsSection(post);
    assert HeadingSection(augmented) + MetaSection(augmented) + KeywordsSection(augmented) == head;
    Regroup(ImageMarkdown(url) + post.content, HorizontalRule, CtaLabel, post.cta);
    Regroup(post.content, HorizontalRule, CtaLabel, post.cta);
    var tail := post.content + (HorizontalRule + CtaLabel + post.cta);
    assert ClosingSection(augmented) == ImageMarkdown(url) + tail by {
      PrependRegroup(ImageMarkdown(url), post.content, HorizontalRule + CtaLabel + post.cta);
    }
    InsertBetween(head, ImageMarkdown(url), tail);
  }

  /** a + b + c + d read with the last three grouped. */
  lemma Regroup(a: string, b: string, c: string, d: string)
    ensures a + b + c + d == a + (b + c + d)
  {
  }

  /** (x + a) + b read with the first one split off. */
  lemma PrependRegroup(x: string, a: string, b: string)
    ensures (x + a) + b == x + (a + b)
  {
  }

  /** Putting x between a and b is cutting a + b at |a| and putting x there. */
  lemma InsertBetween(a: string, x: string, b: string)
    ensures (a + b)[..|a|] == a && (a + b)[|a|..] == b
    ensures a + (x + b) == (a + b)[..|a|] + x + (a + b)[|a|..]
  {
  }

  /** Where the keyword line starts in the rendered file. */
  function KeywordsOffset(post: BlogPost): nat {
    |HeadingSection(post)| + |MetaSection(post)|
  }

  /** The keyword line of the file lists the keywords in their order: with
      at least one keyword and no comma inside any, splitting the text
      between the label and the line break on ", " gives the keywords
      back. */
  lemma KeywordsReadBack(post: BlogPost)
    requires |post.keywords| >= 1
    requires forall k :: 0 <= k < |post.keywords| ==> ',' !in post.keywords[k]
    ensures |KeywordsSection(post)| == |KeywordsLabel| + TotalLength(post.keywords) + 2 * (|post.keywords| - 1) + |SectionBreak|
    ensures KeywordsOffset(post) + |KeywordsSection(post)| == BodyOffset(post) <= |Render(post)|
    ensures Render(post)[KeywordsOffset(post)..BodyOffset(post)] == KeywordsSection(post)
    ensures Split(Render(post)[KeywordsOffset(post) + |KeywordsLabel|..BodyOffset(post) - |SectionBreak|], ", ")
      == post.keywords
  {
    var joined := Join(KeywordSeparator, post.keywords);
    var line := KeywordsSection(post);
    ThreePartSlices(KeywordsLabel, joined, SectionBreak);
    ThreePartSlices(HeadingSection(post) + MetaSection(post), line, ClosingSection(post));
    var text := Render(post);
    assert text[KeywordsOffset(post) + |KeywordsLabel|..BodyOffset(post) - |SectionBreak|]
      == line[|KeywordsLabel|..|line| - |SectionBreak|];
    SplitJoin(KeywordSeparator, post.keywords);
  }

  /** The open file of save_file: what has been written so far. */
  class MarkdownFile {
    var text: string

    constructor ()
      ensures text == ""
    {
      text := "";
    }

    /** f.write(s) appends s. */
    method Write(s: string)
      modifies this
      ensures text == old(text) + s
    {
      text := text + s;
    }
  }

  /** save_file(data): the path it writes and the text it writes there. */
  method SaveFile(data: BlogPost, today: Date) returns (path: string, written: string)
    requires ValidDate(today)
    ensures path == FileName(today, Slug(data.title))
    ensures written == Render(data)
    ensures ParseFileName(path) == Some((today, Slug(data.title)))
  {
    var slug := Slug(data.title);
    path := BlogDir + IsoDate(today) + "-" + slug + MarkdownExt;
    FileNameRoundTrip(today, slug);
    var f := new MarkdownFile();
    f.Write(HeadingMark + data.title + SectionBreak);
    assert f.text == HeadingSection(data);
    f.Write(MetaLabel + data.metaDescription + SectionBreak);
    f.Write(KeywordsLabel + Join(KeywordSeparator, data.keywords) + SectionBreak);
    f.Write(data.content + HorizontalRule + CtaLabel + data.cta);
    written := f.text;
  }

  // ---------------------------------------------------------------------
  // The "Generate Blog" button.

  const ChatModel: string := "gpt-4"
  const MaxTokens: nat := 3500
  const ImageModel: string := "dall-e-3"
  const ImageSize: string := "1024x1024"

  /** What one click asks of the outside world, in order. */
  datatype Effect =
    | ChatCompletion(model: string, prompt: string, maxTokens: nat)
    | ImageCreation(model: string, prompt: string, size: string, count: nat)
    | FileWrite(path: string, text: string)

  /** How a click ends: the blank-topic warning, an error after some
      requests, or a published post with its file and download text. */
  datatype Outcome =
    | BlankTopicWarning
    | Failed(effects: seq<Effect>, error: string)
    | Published(effects: seq<Effect>, post: BlogPost, path: string, download: string)

  /** The chat request of generate_blog: gpt-4, the prompt of the topic,
      at most 3500 tokens. */
  function ChatRequest(topic: string): (e: Effect)
    ensures e.ChatCompletion? && e.model == ChatModel && e.maxTokens == MaxTokens
    ensures e.prompt == Prompt(topic)
  {
    ChatCompletion(ChatModel, Prompt(topic), MaxTokens)
  }

  /** The image request of generate_image: dall-e-3, one 1024x1024 image,
      the illustration prompt of the topic. */
  function ImageRequest(topic: string): (e: Effect)
    ensures e.ImageCreation? && e.model == ImageModel && e.size == ImageSize && e.count == 1
    ensures e.prompt == ImagePrompt(topic)
  {
    ImageCreation(ImageModel, ImagePrompt(topic), ImageSize, 1)
  }

  /** Each request names its topic: different topics never give the same
      chat request or the same image request. */
  lemma RequestsNameTheirTopic(t1: string, t2: string)
    ensures ChatRequest(t1) == ChatRequest(t2) <==> t1 == t2
    ensures ImageRequest(t1) == ImageRequest(t2) <==> t1 == t2
  {
    if ChatRequest(t1) == ChatRequest(t2) {
      PromptInjective(t1, t2);
    }
    if ImageRequest(t1) == ImageRequest(t2) {
      assert ImagePrompt(t1)[|ImagePromptLead|..] == ImagePrompt(t2)[|ImagePromptLead|..];
    }
  }

  /** Some field of the post holds a carriage return. */
  predicate HasCarriageReturn(post: BlogPost) {
    '\r' in post.title || '\r' in post.metaDescription
    || (exists k :: 0 <= k < |post.keywords| && '\r' in post.keywords[k])
    || '\r' in post.content || '\r' in post.cta
  }

  /** The rendered text holds a carriage return exactly when a field does:
      the labels, separators and breaks hold none. */
  lemma RenderCarriageReturn(post: BlogPost)
    ensures '\r' in Render(post) <==> HasCarriageReturn(post)
  {
    var cr := '\r';
    CharInJoin(KeywordSeparator, post.keywords, cr);
    CharBetween(HeadingMark, post.title, SectionBreak, cr);
    CharBetween(MetaLabel, post.metaDescription, SectionBreak, cr);
    CharBetween(KeywordsLabel, Join(KeywordSeparator, post.keywords), SectionBreak, cr);
    CharInFour(post.content, HorizontalRule, CtaLabel, post.cta, cr);
    CharInFour(HeadingSection(post), MetaSection(post), KeywordsSection(post), ClosingSection(post), cr);
  }

  /** Between two texts without c, c occurs exactly where x has it. */
  lemma CharBetween(a: string, x: string, b: string, c: char)
    requires c !in a && c !in b
    ensures c in a + x + b <==> c in x
  {
  }

  /** c is in four texts put together exactly when it is in one of them. */
  lemma CharInFour(a: string, b: string, x: string, y: string, c: char)
    ensures c in a + b + x + y <==> c in a || c in b || c in x || c in y
  {
  }

  /** The downloaded text, read back from the file in text mode, is the
      written text exactly when no field of the post holds a carriage
      return; otherwise every "\r\n" and lone "\r" has become "\n". */
  lemma DownloadIsFileText(post: BlogPost)
    ensures UniversalNewlines(Render(post)) == Render(post) <==> !HasCarriageReturn(post)
  {
    UniversalNewlinesFixed(Render(post));
    RenderCarriageReturn(post);
  }

  /** One click of "Generate Blog" with the given topic. chatReply is what
      generate_blog returns (the parsed post, or the error it raised),
      imageReply what generate_image returns, today the clock's date. */
  method HandleGenerate(topic: string, chatReply: Result<BlogPost, string>,
                        imageReply: Result<string, string>, today: Date) returns (o: Outcome)
    requires ValidDate(today)
    ensures o.BlankTopicWarning? <==> IsBlankTopic(topic)
    ensures !IsBlankTopic(topic) ==> |o.effects| >= 1 && o.effects[0] == ChatRequest(topic)
    ensures o.Published? <==> !IsBlankTopic(topic) && chatReply.Success? && imageReply.Success?
    ensures o.Published? ==>
      o.post == WithImage(chatReply.value, imageReply.value)
      && o.path == FileName(today, Slug(o.post.title))
      && o.download == UniversalNewlines(Render(o.post))
      && o.effects == [ChatRequest(topic), ImageRequest(topic), FileWrite(o.path, Render(o.post))]
    ensures o.Failed? ==>
      (chatReply.Failure? && o.effects == [ChatRequest(topic)] && o.error == chatReply.error)
      || (chatReply.Success? && imageReply.Failure?
          && o.effects == [ChatRequest(topic), ImageRequest(topic)] && o.error == imageReply.error)
  {
    if IsBlankTopic(topic) {
      return BlankTopicWarning;
    }
    var chat := ChatRequest(topic);
    if chatReply.Failure? {
      return Failed([chat], chatReply.error);
    }
    var blog := chatReply.value;
    var image := ImageRequest(topic);
    if imageReply.Failure? {
      return Failed([chat, image], imageReply.error);
    }
    var imageUrl := imageReply.value;
    blog := WithImage(blog, imageUrl);
    var path, written := SaveFile(blog, today);
    var download := UniversalNewlines(written);
    o := Published([chat, image, FileWrite(path, written)], blog, path, download);
  }
}
