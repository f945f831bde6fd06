/** Notes as text: YAML front matter between fences, then the body. */
module NoteFormat {
  import opened Sequences
  import opened Text

  /** A YAML codec for front matter: encoding may fail, decoding too. The empty front matter is
      what a note without any gets. */
  datatype Codec<!FM> = Codec(marshal: FM -> Option<string>, unmarshal: string -> Option<FM>, empty: FM)

  /** What is assumed of it: an encoding ends in a newline, its inner lines do not open with
      three dashes, and without the last newline it decodes to what was encoded. */
  ghost predicate Lawful<FM(!new)>(c: Codec<FM>) {
    forall fm :: c.marshal(fm).Some? ==> LawfulYaml(c, fm, c.marshal(fm).value)
  }

  ghost predicate LawfulYaml<FM>(c: Codec<FM>, fm: FM, yaml: string) {
    && yaml != "" && yaml[|yaml| - 1] == '\n' && NoFence(yaml[..|yaml| - 1])
    && c.unmarshal(yaml[..|yaml| - 1]) == Some(fm)
  }

  datatype Parsed<FM> = Parsed(frontMatter: FM, body: string, failed: bool)

  function TrimLeft(s: string): string {
    if s != "" && (s[0] == '\r' || s[0] == '\n') then TrimLeft(s[1..]) else s
  }

  predicate OpensWithBreak(s: string) {
    s != "" && (s[0] == '\r' || s[0] == '\n')
  }

  /** What follows the opening fence, if the content has one. */
  function AfterOpening(s: string): Option<string> {
    if HasPrefix(s, "---\n") then Some(s[4..])
    else if HasPrefix(s, "---\r\n") then Some(s[5..])
    else None
  }

  /** The YAML and the raw body of content with a complete front matter. */
  function Sections(s: string): Option<(string, string)> {
    match AfterOpening(s)
    case None => None
    case Some(rest) =>
      match IndexFence(rest)
      case None => None
      case Some(i) => Some((rest[..i], rest[i + 4..]))
  }

  function ParseNote<FM>(c: Codec<FM>, s: string): Parsed<FM> {
    match Sections(s)
    case None => Parsed(c.empty, s, false)
    case Some((yaml, raw)) =>
      match c.unmarshal(yaml)
      case None => Parsed(c.empty, s, true)
      case Some(fm) => Parsed(fm, TrimLeft(raw), false)
  }

  function FormatNote<FM>(c: Codec<FM>, fm: FM, body: string): Option<string> {
    match c.marshal(fm)
    case None => None
    case Some(yaml) => Some("---\n" + yaml + "---\n" + if body == "" then "" else "\n" + body)
  }

  lemma {:induction false} TrimmedIff(s: string)
    ensures TrimLeft(s) == s <==> !OpensWithBreak(s)
    ensures !OpensWithBreak(TrimLeft(s)) && |TrimLeft(s)| <= |s|
  {
    if OpensWithBreak(s) { TrimmedIff(s[1..]); }
  }

  lemma SectionsOf(yaml: string, raw: string)
    requires NoFence(yaml)
    ensures Sections("---\n" + (yaml + FENCE + raw)) == Some((yaml, raw))
  {
    var rest := yaml + FENCE + raw;
    PrefixOf("---\n", rest);
    FirstFence(yaml, raw);
    assert rest[..|yaml|] == yaml && rest[|yaml| + 4..] == raw;
  }

  function Tail(body: string): string {
    "\n" + if body == "" then "" else "\n" + body
  }

  lemma TrimTail(body: string)
    ensures TrimLeft(Tail(body)) == TrimLeft(body)
  {
    if body == "" {
      assert Tail(body)[1..] == "";
    } else {
      assert Tail(body)[1..] == "\n" + body && ("\n" + body)[1..] == body;
    }
  }

  lemma FormatShape<FM>(c: Codec<FM>, fm: FM, body: string, y: string)
    requires c.marshal(fm) == Some(y + "\n")
    ensures FormatNote(c, fm, body) == Some("---\n" + (y + FENCE + Tail(body)))
  {
    var rest := if body == "" then "" else "\n" + body;
    assert "---\n" + (y + "\n") + "---\n" + rest == "---\n" + (y + FENCE + ("\n" + rest));
  }

  /** Reading what was written gives the front matter back and the body without the line breaks
      it opened with. */
  lemma ParseOfFormat<FM>(c: Codec<FM>, fm: FM, body: string)
    requires c.marshal(fm).Some? && LawfulYaml(c, fm, c.marshal(fm).value)
    ensures ParseNote(c, FormatNote(c, fm, body).value) == Parsed(fm, TrimLeft(body), false)
  {
    var yaml := c.marshal(fm).value;
    var y := yaml[..|yaml| - 1];
    assert yaml == y + "\n";
    FormatShape(c, fm, body, y);
    SectionsOf(y, Tail(body));
    TrimTail(body);
  }

  /** So the round trip is exact for exactly the bodies that do not open with CR or LF. */
  lemma RoundTripIff<FM(!new)>(c: Codec<FM>, fm: FM, body: string)
    requires Lawful(c) && c.marshal(fm).Some?
    ensures ParseNote(c, FormatNote(c, fm, body).value) == Parsed(fm, body, false) <==> !OpensWithBreak(body)
  {
    ParseOfFormat(c, fm, body);
    TrimmedIff(body);
  }

  /** Rewriting a note that was read: the second reading agrees with the first unless the first
      found no front matter and a text that opens with a line break. */
  lemma RereadIff<FM(!new)>(c: Codec<FM>, s: string)
    requires Lawful(c) && !ParseNote(c, s).failed && c.marshal(ParseNote(c, s).frontMatter).Some?
    ensures var p := ParseNote(c, s);
            ParseNote(c, FormatNote(c, p.frontMatter, p.body).value) == p <==> Sections(s).Some? || !OpensWithBreak(s)
  {
    var p := ParseNote(c, s);
    RoundTripIff(c, p.frontMatter, p.body);
    if Sections(s).Some? { TrimmedIff(Sections(s).value.1); }
  }
}
