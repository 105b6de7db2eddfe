# HustleOS blog agent: a Dafny model of its string handling

The HustleOS blog agent is a single Streamlit page (`blog_agent.py`). It takes
a topic, asks a chat model for an SEO blog post as JSON (title, meta
description, keywords, content, call to action), asks an image model for an
illustration, puts the illustration in front of the body and saves the post
as a Markdown file under `blogs/`. This project models the deterministic
part of that pipeline:

- `get_prompt`: the fixed prompt template with the topic in its one slot
  (`BlogAgent.Prompt`, built from the template's lines);
- the guard `if not topic.strip()` (`BlogAgent.IsBlankTopic`, over a model of
  Python's `str.strip` and `str.isspace` in `PyStr`);
- the image line prepended to the body (`BlogAgent.WithImage`);
- `save_file`: the slug (`title.lower().replace(" ", "-")`), the path
  `blogs/YYYY-MM-DD-<slug>.md` (`Calendar.IsoDate` models
  `strftime('%Y-%m-%d')`), and the file text built by four successive
  `f.write` calls, modelled as a `MarkdownFile` buffer class whose `Write`
  appends; `SaveFile` is proved to produce `Render(data)`;
- one click of "Generate Blog" (`BlogAgent.HandleGenerate`): the answers
  of the two model calls and today's date are parameters; the requests made
  and the file written are returned as a list of effects, so the model
  states which calls happen in which case.

Files: `wrappers.dfy` (Option and Result), `pystr.dfy` (the Python string
built-ins used), `calendar.dfy` (dates and their `YYYY-MM-DD` stamp),
`blog_agent.dfy` (everything in `blog_agent.py`).

Partners used to state what each operation means: `PyStr.Split` undoes
`PyStr.Join` on the keyword line when there is at least one keyword and no
keyword contains the separator's first character (a comma);
`Calendar.ParseIsoDate` and `BlogAgent.ParseFileName` are the inverses of
the date stamp and of the file name in both directions; occurrence counting
(`PyStr.OccursAt`) pins the topic line of the prompt to exactly one place;
and `PyStr.UniversalNewlines` models how the saved file reads back for the
download, so the download is compared with the written text.

The model of `str.lower()` changes only A-Z; `str.isspace()` (and so
`strip()`) is modelled with Python's whole whitespace table, not only ASCII.

## Model

| member | source | states |
|---|---|---|
| PyStr.IsSpace | blog_agent.py:77 | `str.isspace()` of one character, written as code point ranges, holds for exactly the 29 whitespace code points Python lists |
| PyStr.TrimStart | blog_agent.py:77 | the result is a suffix of the input, starts with a non-whitespace character or is empty, and everything dropped is whitespace |
| PyStr.TrimEnd | blog_agent.py:77 | the result is a prefix of the input, ends with a non-whitespace character or is empty, and everything dropped is whitespace |
| PyStr.Strip | blog_agent.py:77 | `strip()` returns an infix with whitespace-free ends, and every character of the input outside it is whitespace |
| PyStr.StripEmptyIffAllSpace | blog_agent.py:77 | a string strips to nothing if and only if all its characters are whitespace |
| BlogAgent.IsBlankTopic | blog_agent.py:77-78 | `not topic.strip()` holds exactly when the topic is empty or all whitespace |
| PyStr.Lower | blog_agent.py:61 | `lower()` keeps the length and maps each character through the ASCII A-Z to a-z table |
| PyStr.LowerIsLower | blog_agent.py:61 | a lower-cased string has no A-Z left, and lower-casing it again changes nothing |
| PyStr.ReplaceChar | blog_agent.py:61 | `replace(" ", "-")` keeps the length, turns every space into a hyphen and leaves every other character where it was |
| BlogAgent.Slug | blog_agent.py:61 | the slug has the title's length, holds no space, and each character is the lower-cased title character at that index or `-` where the title had a space |
| BlogAgent.SlugIdempotent | blog_agent.py:61 | taking the slug of a slug gives the same slug |
| Calendar.ZeroPadded | blog_agent.py:62 | a `%Y`/`%m`/`%d` field is exactly `width` decimal digits whose value is the number printed |
| Calendar.IsoDate | blog_agent.py:62 | `strftime('%Y-%m-%d')` is 10 characters, `-` at indices 4 and 7, digits everywhere else |
| Calendar.ParseIsoDate | blog_agent.py:62 | reading a stamp back yields only valid dates |
| Calendar.IsoDateRoundTrip | blog_agent.py:62 | reading the stamp of a date back gives that date |
| Calendar.ZeroPaddedOfDigits | blog_agent.py:62 | every field of digits is the padded rendering, at its own width, of the number it spells |
| Calendar.ParseIsoDateSound | blog_agent.py:62 | every stamp the parser accepts is the stamp of the date it returns, so parser and stamp are inverses both ways |
| Calendar.IsoDateInjective | blog_agent.py:62 | two different dates never share a stamp |
| BlogAgent.FileName | blog_agent.py:62 | the path is as long as `blogs/`, an 11-character `YYYY-MM-DD-` stamp, the slug and `.md` together |
| BlogAgent.ParseFileName | blog_agent.py:62 | a path it accepts names a valid date |
| BlogAgent.ParseFileNameSound | blog_agent.py:62 | every path the parser accepts is the file name of the date and slug it returns |
| BlogAgent.FileNameRoundTrip | blog_agent.py:62 | the date and the slug can be read back out of the path exactly |
| PyStr.Join | blog_agent.py:66 | `', '.join(keywords)` is empty for no keywords, the keyword itself for one, starts with the first keyword, and has the keywords' total length plus one separator per gap |
| PyStr.JoinSnoc | blog_agent.py:66 | appending a keyword appends one separator and that keyword, so keywords appear in input order |
| PyStr.SplitJoin | blog_agent.py:66 | splitting the joined text on the separator gives the keywords back when none contains the separator's first character |
| PyStr.CharInJoin | blog_agent.py:66 | with a separator that lacks a character, the joined text holds it exactly when some part does |
| BlogAgent.KeywordsReadBack | blog_agent.py:64-66 | the keyword line sits in the file right after the heading and meta lines, and its text between `**Keywords:** ` and the line break splits on `", "` back into the keywords, in order, when there is at least one and none contains a comma; the line is the label, the keywords' total length plus 2·(n−1), and the break long |
| BlogAgent.OccursOnlyBetween | blog_agent.py:14-35 | a line starting with `T` placed between two texts without `T` occurs in the result at exactly one position, right after the first text |
| BlogAgent.Prompt | blog_agent.py:13-35 | the prompt contains `Topic: "` + topic + `"` at exactly one position, right after the fixed introduction, for every topic |
| BlogAgent.PromptFrame | blog_agent.py:14-35 | the prompt is the fixed introduction and `Topic: "`, then the topic, then `"` and the fixed JSON instructions, so the topic can be read back |
| BlogAgent.PromptInjective | blog_agent.py:13-35 | different topics give different prompts |
| BlogAgent.TemplateLacksT | blog_agent.py:14-35 | the template text outside the topic line holds no `T`, which is what pins the topic line to one place |
| BlogAgent.ImagePrompt | blog_agent.py:52 | the image prompt is the fixed lead `Eye-catching blog illustration: ` followed by the whole topic |
| BlogAgent.ChatRequest | blog_agent.py:38-45 | the chat request names `gpt-4`, the prompt of the topic and a 3500-token cap |
| BlogAgent.ImageRequest | blog_agent.py:49-55 | the image request names `dall-e-3`, the image prompt of the topic, size `1024x1024` and one image |
| BlogAgent.RequestsNameTheirTopic | blog_agent.py:38-55 | two chat requests, or two image requests, are equal exactly when their topics are |
| BlogAgent.WithImage | blog_agent.py:84 | the new content is the image line followed by the whole old content; title, meta description, keywords and CTA are unchanged |
| BlogAgent.Render | blog_agent.py:64-67 | the file text starts with `# ` + title and ends with `**CTA:** ` + CTA |
| BlogAgent.RenderBodyAt | blog_agent.py:64-67 | after heading, meta line and keyword line the body appears whole, followed only by the rule and the CTA line |
| BlogAgent.RenderWithImage | blog_agent.py:64-67 | rendering the augmented post inserts exactly the image line at the start of the body and changes nothing else, so the image is the body's first line |
| PyStr.UniversalNewlines | blog_agent.py:92-93 | reading a text-mode file back leaves no carriage return and never lengthens the text |
| PyStr.UniversalNewlinesKeepsPlainText | blog_agent.py:92-93 | a text without carriage returns reads back unchanged |
| PyStr.UniversalNewlinesFixed | blog_agent.py:92-93 | reading back changes a text exactly when it holds a carriage return, and reading back twice is reading back once |
| BlogAgent.RenderCarriageReturn | blog_agent.py:64-67 | the file text holds a carriage return exactly when a field of the post does |
| BlogAgent.DownloadIsFileText | blog_agent.py:63-93 | the downloaded text equals the written file text exactly when no field of the post holds a carriage return |
| BlogAgent.MarkdownFile.constructor | blog_agent.py:63 | a freshly opened file is empty |
| BlogAgent.MarkdownFile.Write | blog_agent.py:64-67 | `f.write(s)` appends `s` to what was written |
| BlogAgent.SaveFile | blog_agent.py:59-68 | the four writes produce exactly `Render(data)`, and the returned path is `FileName(today, Slug(title))`, from which date and slug read back |
| BlogAgent.HandleGenerate | blog_agent.py:76-93 | a blank topic gives only the warning with no request and no file; otherwise the chat request with the prompt comes first; a post is published exactly when both calls succeed, then with the image-augmented post, its path and its rendered text as the single file write, and the download is that text read back in text mode (universal newlines); a failure of either call stops there with no file written |

## Left out

- The chat and image calls themselves (`openai.ChatCompletion.create`, `openai.Image.create`): third-party network calls; their answers are parameters of `HandleGenerate` and the requests are recorded as effects. The sampling temperature 0.7 (a float) is not recorded.
- `json.loads` of the chat reply: the parsed post is a parameter; a reply that is not JSON is modelled as a failed chat call, like an API error.
- A JSON reply that parses but lacks a field: the source then raises `KeyError` at the first use of the field (after the image call for `content`, during the writes for `meta_description`, `keywords` or `cta`, leaving a partly written file); the model's `BlogPost` always has all five fields, and keywords that are not strings are not modelled.
- The filesystem: `os.makedirs` and the file itself; the model returns the path, the text written and the text read back for the download (the written text with universal newlines applied). Writing assumes `\n` line ends, as on POSIX; on Windows text mode writes each `\n` as `\r\n`, which reads back as `\n` again. Write failures (for example a title containing `/`, whose slug names a missing directory) and the download file name (`os.path.basename`) are not modelled.
- `datetime.now()`: the date is a parameter.
- Calendar.IsoDate: years 1 to 999 are printed zero-padded to four digits; on Linux the C library behind `strftime('%Y')` prints such years without padding.
- PyStr.Lower: models only ASCII A-Z; Python's `str.lower()` also maps other upper-case letters, some to more than one character, so the "same length as the title" property holds only for this model.
- The Streamlit page: page setup, the text input and button, the spinner, the success, warning and error banners and their texts, and the rendering of title, content and CTA (lines 71-95 apart from the guard, the augmentation, the save and the download text).
- Loading the API key from the environment (lines 9-10).
