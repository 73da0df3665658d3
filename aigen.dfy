/**
 * The AI content generator page: the form it keeps while the user types, and
 * the way it turns generated text into headings and paragraphs.
 */
module AIGen {
  import opened Text

  // ---------------------------------------------------------------------------
  // The form
  // ---------------------------------------------------------------------------

  /** The form fields, keyed by the input's `name`. */
  type Form = map<string, string>

  const FieldNames: set<string> := {"product_details", "target_audience", "marketing_goal", "tone_style"}

  /** The form the page starts with: every field empty. */
  function InitialForm(): (f: Form)
    ensures f.Keys == FieldNames
    ensures forall k :: k in f ==> f[k] == ""
  {
    map["product_details" := "", "target_audience" := "", "marketing_goal" := "", "tone_style" := ""]
  }

  /** `handleChange`: the field the event names takes the event's value; no other field changes. */
  function HandleChange(form: Form, name: string, value: string): (r: Form)
    ensures name in r && r[name] == value
    ensures r.Keys == form.Keys + {name}
    ensures forall k :: k in form && k != name ==> r[k] == form[k]
  {
    form[name := value]
  }

  /** One input event: the input's name and its new value. */
  datatype Change = Change(name: string, value: string)

  /** The form after a sequence of input events, each handled in turn. */
  function ApplyChanges(form: Form, changes: seq<Change>): Form
    decreases |changes|
  {
    if changes == [] then form
    else ApplyChanges(HandleChange(form, changes[0].name, changes[0].value), changes[1..])
  }

  /** The value a field holds after `changes`: the last one written to it, else `initial`. */
  function LastWritten(changes: seq<Change>, name: string, initial: string): string
    decreases |changes|
  {
    if changes == [] then initial
    else if changes[|changes| - 1].name == name then changes[|changes| - 1].value
    else LastWritten(changes[..|changes| - 1], name, initial)
  }

  lemma {:induction false} ApplyChangesSnoc(form: Form, changes: seq<Change>, c: Change)
    ensures ApplyChanges(form, changes + [c]) == HandleChange(ApplyChanges(form, changes), c.name, c.value)
    decreases |changes|
  {
    if changes != [] {
      assert (changes + [c])[1..] == changes[1..] + [c];
      ApplyChangesSnoc(HandleChange(form, changes[0].name, changes[0].value), changes[1..], c);
    }
  }

  /**
   * Events that only name form inputs keep exactly the four fields, and each
   * field holds the value last typed into it, or "" when it was never touched.
   */
  lemma {:induction false} ApplyChangesFields(changes: seq<Change>)
    requires forall i :: 0 <= i < |changes| ==> changes[i].name in FieldNames
    ensures ApplyChanges(InitialForm(), changes).Keys == FieldNames
    ensures forall k :: k in FieldNames ==> ApplyChanges(InitialForm(), changes)[k] == LastWritten(changes, k, "")
    decreases |changes|
  {
    if changes != [] {
      var init, last := changes[..|changes| - 1], changes[|changes| - 1];
      assert changes == init + [last];
      ApplyChangesFields(init);
      ApplyChangesSnoc(InitialForm(), init, last);
    }
  }

  // ---------------------------------------------------------------------------
  // Formatting the generated content
  // ---------------------------------------------------------------------------

  /** A rendered line: a level-1 heading, a level-2 heading or a paragraph. */
  datatype Element = H1(text: string) | H2(text: string) | P(text: string)

  /** What `formatContent` yields: the placeholder text, or one element per line. */
  datatype Rendered = Placeholder(message: string) | Elements(elements: seq<Element>)

  const BlogPostMarker := "### Blog Post:"
  const BlogPostHeading := "Blog Post"
  const TitleMarker := "**Title:**"
  const TitleHeading := "Title: "
  const PlaceholderMessage := "Your AI-generated content will appear here."

  /**
   * One line of `formatContent`: the blog-post marker makes a level-1 heading,
   * else the title marker a level-2 heading, the marker rewritten; any other
   * line is a paragraph as it stands.
   */
  function FormatLine(line: string): (r: Element)
    ensures r.H1? <==> BlogPostMarker <= line
    ensures r.H1? ==> r.text == BlogPostHeading + line[|BlogPostMarker|..]
    ensures r.H2? <==> !(BlogPostMarker <= line) && TitleMarker <= line
    ensures r.H2? ==> r.text == TitleHeading + line[|TitleMarker|..]
    ensures r.P? ==> r.text == line
  {
    if BlogPostMarker <= line then H1(ReplaceFirst(line, BlogPostMarker, BlogPostHeading))
    else if TitleMarker <= line then H2(ReplaceFirst(line, TitleMarker, TitleHeading))
    else P(line)
  }

  /** The line an element was rendered from: the rewritten marker put back. */
  function SourceLine(e: Element): string {
    match e
    case H1(t) => if BlogPostHeading <= t then BlogPostMarker + t[|BlogPostHeading|..] else t
    case H2(t) => if TitleHeading <= t then TitleMarker + t[|TitleHeading|..] else t
    case P(t) => t
  }

  /** Rendering a line loses nothing: the line can be read back from its element. */
  lemma FormatLineRoundTrip(line: string)
    ensures SourceLine(FormatLine(line)) == line
  {
    var e := FormatLine(line);
    if e.H1? {
      assert e.text[|BlogPostHeading|..] == line[|BlogPostMarker|..];
      assert line == BlogPostMarker + line[|BlogPostMarker|..];
    } else if e.H2? {
      assert e.text[|TitleHeading|..] == line[|TitleMarker|..];
      assert line == TitleMarker + line[|TitleMarker|..];
    }
  }

  /** `formatContent`: empty content shows the placeholder, else line i becomes element i, formatted by `FormatLine`. */
  function FormatContent(content: string): (r: Rendered)
    ensures content == [] <==> r == Placeholder(PlaceholderMessage)
    ensures content != [] ==> r.Elements? && |r.elements| == Count(content, '\n') + 1
    ensures content != [] ==> forall i :: 0 <= i < |r.elements| ==> r.elements[i] == FormatLine(SplitOn(content, '\n')[i])
  {
    if content == [] then Placeholder(PlaceholderMessage)
    else
      var lines := SplitOn(content, '\n');
      Elements(seq(|lines|, i requires 0 <= i < |lines| => FormatLine(lines[i])))
  }

  function SourceLines(es: seq<Element>): seq<string> {
    seq(|es|, i requires 0 <= i < |es| => SourceLine(es[i]))
  }

  /**
   * The elements come one per line and in order: reading each element's line
   * back and joining them with newlines gives the content again.
   */
  lemma FormatContentRoundTrip(content: string)
    requires content != []
    ensures FormatContent(content).Elements?
    ensures Join(SourceLines(FormatContent(content).elements), "\n") == content
  {
    var lines := SplitOn(content, '\n');
    var es := FormatContent(content).elements;
    SplitOnJoin(content, '\n');
    forall i | 0 <= i < |lines| ensures SourceLines(es)[i] == lines[i] {
      FormatLineRoundTrip(lines[i]);
    }
    assert SourceLines(es) == lines;
  }
}
