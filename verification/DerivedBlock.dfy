/** Derived metadata kept as one JSON line in a note's front matter. */
module DerivedBlock {
  import opened Sequences
  import opened Text

  /** JSON for the metadata: one line, decoding to what was encoded. */
  datatype Codec<!M> = Codec(marshal: M -> string, unmarshal: string -> Option<M>)

  ghost predicate Lawful<M(!new)>(c: Codec<M>) {
    forall m :: OneLine(c.marshal(m)) && c.unmarshal(c.marshal(m)) == Some(m)
  }

  datatype ReadError = NotFound | BadJSON

  const KEY: string := "derived:"
  const PREFIX: string := "derived: "

  function LineOf<M>(c: Codec<M>, m: M): string {
    PREFIX + c.marshal(m)
  }

  function Other(line: string): bool {
    !HasPrefix(line, KEY)
  }

  // ----- Reading and writing -----

  /** The first line with the prefix decides. */
  function ReadLines<M>(c: Codec<M>, lines: seq<string>): Result<M, ReadError> {
    if lines == [] then Err(NotFound)
    else if HasPrefix(lines[0], PREFIX) then
      (match c.unmarshal(lines[0][|PREFIX|..]) case Some(m) => Ok(m) case None => Err(BadJSON))
    else ReadLines(c, lines[1..])
  }

  method ParseDerivedBlock<M>(c: Codec<M>, content: string) returns (r: Result<M, ReadError>)
    ensures r == ReadLines(c, Lines(content))
  {
    var lines := Lines(content);
    for i := 0 to |lines|
      invariant ReadLines(c, lines[i..]) == ReadLines(c, lines)
    {
      if HasPrefix(lines[i], PREFIX) {
        var raw := lines[i][|PREFIX|..];
        return match c.unmarshal(raw) case Some(m) => Ok(m) case None => Err(BadJSON);
      }
      assert lines[i..][1..] == lines[i + 1..];
    }
    r := Err(NotFound);
  }

  /** The front matter's inner text and what follows its closing fence. */
  function Cut(content: string): Option<(string, string)> {
    if !HasPrefix(content, "---") then None
    else match IndexFence(content[3..])
      case None => None
      case Some(i) => Some((content[3..][..i], content[3..][i + 4..]))
  }

  function Rewritten<M>(c: Codec<M>, inner: string, m: M): string {
    Join(Filter(Lines(inner), Other) + [LineOf(c, m)])
  }

  function Injected<M>(c: Codec<M>, content: string, m: M): Option<string> {
    if !HasPrefix(content, "---") then Some("---\n" + LineOf(c, m) + "\n---\n\n" + content)
    else match Cut(content)
      case None => None
      case Some((inner, after)) => Some("---" + (Rewritten(c, inner, m) + FENCE + after))
  }

  /** None stands for the error on front matter that is never closed. */
  method InjectDerived<M>(c: Codec<M>, content: string, m: M) returns (r: Option<string>)
    ensures r == Injected(c, content, m)
    ensures !HasPrefix(content, "---") ==> r == Some("---\nderived: " + c.marshal(m) + "\n---\n\n" + content)
    ensures HasPrefix(content, "---") && Cut(content).Some? ==>
              var front := Join(NotDerived(content) + ["derived: " + c.marshal(m)]);
              r == Some("---" + (front + "\n---" + Cut(content).value.1))
  {
    InjectedMeans(c, content, m);
    var line := PREFIX + c.marshal(m);
    if !HasPrefix(content, "---") {
      return Some("---\n" + line + "\n---\n\n" + content);
    }
    var rest := content[3..];
    var idx := IndexFence(rest);
    if idx.None? { return None; }
    var lines, kept := Lines(rest[..idx.value]), [];
    for i := 0 to |lines|
      invariant kept == Filter(lines[..i], Other)
    {
      assert lines[..i + 1] == lines[..i] + [lines[i]];
      FilterAppend(lines[..i], [lines[i]], Other);
      if !HasPrefix(lines[i], KEY) { kept := kept + [lines[i]]; }
    }
    assert lines[..|lines|] == lines;
    r := Some("---" + (Join(kept + [line]) + FENCE + rest[idx.value + 4..]));
  }

  lemma OtherMeans(lines: seq<string>, f: string -> bool)
    requires forall l :: f(l) <==> !("derived:" <= l)
    ensures Filter(lines, Other) == Filter(lines, f)
  {
    if lines != [] { OtherMeans(lines[1..], f); }
  }

  /** The front-matter lines that do not start with the key. */
  function NotDerived(content: string): seq<string>
    requires Cut(content).Some?
  {
    Filter(Lines(Cut(content).value.0), (l: string) => !("derived:" <= l))
  }

  lemma InjectedMeans<M>(c: Codec<M>, content: string, m: M)
    ensures !HasPrefix(content, "---") ==>
              Injected(c, content, m) == Some("---\nderived: " + c.marshal(m) + "\n---\n\n" + content)
    ensures HasPrefix(content, "---") && Cut(content).Some? ==>
              var front := Join(NotDerived(content) + ["derived: " + c.marshal(m)]);
              Injected(c, content, m) == Some("---" + (front + "\n---" + Cut(content).value.1))
  {
    if !HasPrefix(content, "---") {
      assert "---\n" + LineOf(c, m) + "\n---\n\n" + content == "---\nderived: " + c.marshal(m) + "\n---\n\n" + content;
    } else if Cut(content).Some? {
      OtherMeans(Lines(Cut(content).value.0), (l: string) => !("derived:" <= l));
    }
  }

  // ----- The shape of rewritten front matter -----

  lemma LineFacts<M(!new)>(c: Codec<M>, m: M)
    requires Lawful(c)
    ensures OneLine(LineOf(c, m)) && !Other(LineOf(c, m)) && !HasPrefix(LineOf(c, m), "---")
    ensures HasPrefix(LineOf(c, m), PREFIX) && LineOf(c, m)[|PREFIX|..] == c.marshal(m)
  {
    var json := c.marshal(m);
    PrefixOf(PREFIX, json);
    assert PREFIX == KEY + " ";
    assert LineOf(c, m) == KEY + (" " + json);
    PrefixOf(KEY, " " + json);
    assert LineOf(c, m)[0] == 'd';
  }

  /** The rewritten text has the kept lines and the new one. */
  lemma RewrittenLines<M(!new)>(c: Codec<M>, inner: string, m: M)
    requires Lawful(c)
    ensures Lines(Rewritten(c, inner, m)) == Filter(Lines(inner), Other) + [LineOf(c, m)]
  {
    var kept := Filter(Lines(inner), Other);
    LinesAreLines(inner);
    LineFacts(c, m);
    forall i | 0 <= i < |kept| ensures OneLine(kept[i]) {
      assert kept[i] == Lines(inner)[FilterIndex(Lines(inner), Other, i)];
    }
    LinesOfJoin(kept + [LineOf(c, m)]);
  }

  lemma RewrittenNoFence<M(!new)>(c: Codec<M>, inner: string, m: M)
    requires Lawful(c) && NoFence(inner)
    ensures NoFence(Rewritten(c, inner, m))
  {
    var all, kept := Lines(inner), Filter(Lines(inner), Other);
    NoFenceByLines(inner);
    RewrittenLines(c, inner, m);
    LineFacts(c, m);
    NoFenceByLines(Rewritten(c, inner, m));
    forall i | 1 <= i < |kept| ensures !HasPrefix(kept[i], "---") {
      FilterIndexIncreasing(all, Other, 0, i);
      assert kept[i] == all[FilterIndex(all, Other, i)];
    }
  }

  lemma CutOf(inner: string, after: string)
    requires NoFence(inner)
    ensures HasPrefix("---" + (inner + FENCE + after), "---")
    ensures Cut("---" + (inner + FENCE + after)) == Some((inner, after))
  {
    var rest := inner + FENCE + after;
    PrefixOf("---", rest);
    FirstFence(inner, after);
    assert rest[..|inner|] == inner && rest[|inner| + 4..] == after;
  }

  lemma CutInner(content: string)
    requires Cut(content).Some?
    ensures NoFence(Cut(content).value.0)
  {
    BeforeFirstFence(content[3..], IndexFence(content[3..]).value);
  }

  // ----- What injecting keeps -----

  lemma FreshShape<M(!new)>(c: Codec<M>, content: string, m: M)
    requires Lawful(c)
    ensures "---\n" + LineOf(c, m) + "\n---\n\n" + content
      == "---" + (("\n" + LineOf(c, m)) + FENCE + ("\n\n" + content))
    ensures Lines("\n" + LineOf(c, m)) == ["", LineOf(c, m)]
    ensures NoFence("\n" + LineOf(c, m))
  {
    LineFacts(c, m);
    LinesOfLine(LineOf(c, m));
    assert ("\n" + LineOf(c, m))[1..] == LineOf(c, m);
    NoFenceByLines("\n" + LineOf(c, m));
  }

  /** Front matter after an injection: content that had some keeps every line but the derived
      ones, and everything behind the closing fence; other content is kept whole. */
  lemma InjectedCut<M(!new)>(c: Codec<M>, content: string, m: M)
    requires Lawful(c) && Injected(c, content, m).Some?
    ensures HasPrefix(Injected(c, content, m).value, "---")
    ensures HasPrefix(content, "---") ==>
              && Cut(content).Some?
              && Cut(Injected(c, content, m).value)
                == Some((Rewritten(c, Cut(content).value.0, m), Cut(content).value.1))
    ensures !HasPrefix(content, "---") ==>
              Cut(Injected(c, content, m).value) == Some(("\n" + LineOf(c, m), "\n\n" + content))
  {
    if HasPrefix(content, "---") {
      var (inner, after) := Cut(content).value;
      CutInner(content);
      RewrittenNoFence(c, inner, m);
      CutOf(Rewritten(c, inner, m), after);
    } else {
      FreshShape(c, content, m);
      CutOf("\n" + LineOf(c, m), "\n\n" + content);
    }
  }

  lemma {:induction false} FilterTwice(lines: seq<string>)
    ensures Filter(Filter(lines, Other), Other) == Filter(lines, Other)
  {
    if lines != [] { FilterTwice(lines[1..]); }
  }

  lemma RewriteTwice<M(!new)>(c: Codec<M>, inner: string, m1: M, m2: M)
    requires Lawful(c)
    ensures Rewritten(c, Rewritten(c, inner, m1), m2) == Rewritten(c, inner, m2)
  {
    var kept := Filter(Lines(inner), Other);
    RewrittenLines(c, inner, m1);
    LineFacts(c, m1);
    FilterAppend(kept, [LineOf(c, m1)], Other);
    FilterTwice(Lines(inner));
    assert Filter(kept + [LineOf(c, m1)], Other) == kept;
  }

  lemma RewriteFresh<M(!new)>(c: Codec<M>, m1: M, m2: M)
    requires Lawful(c)
    ensures Rewritten(c, "\n" + LineOf(c, m1), m2) == "\n" + LineOf(c, m2)
  {
    FreshShape(c, "", m1);
    LineFacts(c, m1);
    assert Filter([LineOf(c, m1)], Other) == [];
    assert !HasPrefix("", KEY);
    assert Filter(["", LineOf(c, m1)], Other) == [""] + Filter([LineOf(c, m1)], Other);
    assert ["", LineOf(c, m2)][1..] == [LineOf(c, m2)];
    assert Join(["", LineOf(c, m2)]) == "\n" + LineOf(c, m2);
  }

  /** The last injection wins and leaves no trace of the one before. */
  lemma InjectTwice<M(!new)>(c: Codec<M>, content: string, m1: M, m2: M)
    requires Lawful(c)
    ensures Injected(c, content, m1).None? <==> Injected(c, content, m2).None?
    ensures Injected(c, content, m1).Some? ==>
              Injected(c, Injected(c, content, m1).value, m2) == Injected(c, content, m2)
  {
    if Injected(c, content, m1).Some? {
      InjectedCut(c, content, m1);
      if HasPrefix(content, "---") {
        RewriteTwice(c, Cut(content).value.0, m1, m2);
      } else {
        RewriteFresh(c, m1, m2);
        FreshShape(c, content, m2);
      }
    }
  }

  // ----- Reading back -----

  lemma {:induction false} ReadAfterOthers<M(!new)>(c: Codec<M>, lines: seq<string>, m: M, rest: seq<string>)
    requires Lawful(c) && forall i :: 0 <= i < |lines| ==> !HasPrefix(lines[i], PREFIX)
    ensures ReadLines(c, lines + [LineOf(c, m)] + rest) == Ok(m)
  {
    var all := lines + [LineOf(c, m)] + rest;
    if lines == [] {
      LineFacts(c, m);
    } else {
      assert all[1..] == lines[1..] + [LineOf(c, m)] + rest;
      ReadAfterOthers(c, lines[1..], m, rest);
    }
  }

  /** Some line of the front matter is kept; always so when the content opens with three dashes
      and a newline. */
  predicate Survives(content: string) {
    !HasPrefix(content, "---") || (Cut(content).Some? && Filter(Lines(Cut(content).value.0), Other) != [])
  }

  lemma NewlineSurvives(content: string)
    requires HasPrefix(content, "---\n") && Cut(content).Some?
    ensures Survives(content)
  {
    var (inner, _) := Cut(content).value;
    var i := IndexFence(content[3..]).value;
    assert content[3] == content[..4][3] == '\n';
    if i == 0 {
      assert Lines(inner) == [""];
    } else {
      assert inner[0] == '\n';
      assert Lines(inner)[0] == "";
    }
    assert Other("");
    assert Other(Lines(inner)[0]);
  }

  /** The lines of an injected content that had front matter: the three dashes stand before the
      first kept line, or before the new line when none is kept. */
  lemma InjectedLines<M(!new)>(c: Codec<M>, inner: string, after: string, m: M)
    requires Lawful(c)
    ensures var front := Filter(Lines(inner), Other) + [LineOf(c, m)];
            Lines("---" + (Rewritten(c, inner, m) + FENCE + after))
              == ["---" + front[0]] + front[1..] + Lines("---" + after)
  {
    var front, x := Filter(Lines(inner), Other) + [LineOf(c, m)], Rewritten(c, inner, m);
    RewrittenLines(c, inner, m);
    assert "---" + (x + FENCE + after) == ("---" + x) + "\n" + ("---" + after);
    LinesAppend("---" + x, "---" + after);
    LinesOfStart("---", x);
  }

  lemma OtherNoPrefix(line: string)
    requires Other(line)
    ensures !HasPrefix(line, PREFIX)
  {
    assert PREFIX[..|KEY|] == KEY;
    if |line| >= |PREFIX| { assert line[..|KEY|] == line[..|PREFIX|][..|KEY|]; }
  }

  /** When a line is kept, the metadata reads back as injected; when none is, what is read does
      not depend on what was injected. */
  lemma ReadBack<M(!new)>(c: Codec<M>, content: string, m: M)
    requires Lawful(c) && Injected(c, content, m).Some?
    ensures Survives(content) ==> ReadLines(c, Lines(Injected(c, content, m).value)) == Ok(m)
    ensures !Survives(content) ==>
              ReadLines(c, Lines(Injected(c, content, m).value)) == ReadLines(c, Lines("---" + Cut(content).value.1))
  {
    if HasPrefix(content, "---") {
      var (inner, after) := Cut(content).value;
      ReadBackInner(c, inner, after, m);
    } else {
      FreshShape(c, content, m);
      var line := LineOf(c, m);
      var tail := "---\n\n" + content;
      assert Injected(c, content, m).value == "---" + "\n" + (line + "\n" + tail);
      LinesAppend("---", line + "\n" + tail);
      LinesAppend(line, tail);
      LineFacts(c, m);
      LinesOfLine(line);
      LinesOfLine("---");
      assert ["---"] + ([line] + Lines(tail)) == ["---"] + [line] + Lines(tail);
      assert "---"[0] == '-';
      ReadAfterOthers(c, ["---"], m, Lines(tail));
    }
  }

  lemma ReadBackInner<M(!new)>(c: Codec<M>, inner: string, after: string, m: M)
    requires Lawful(c)
    ensures var read := ReadLines(c, Lines("---" + (Rewritten(c, inner, m) + FENCE + after)));
            if Filter(Lines(inner), Other) != [] then read == Ok(m) else read == ReadLines(c, Lines("---" + after))
  {
    var kept := Filter(Lines(inner), Other);
    InjectedLines(c, inner, after, m);
    if kept != [] {
      forall i | 0 <= i < |kept| ensures Other(kept[i]) { FilterMember(Lines(inner), Other, kept[i]); }
      ReadBehindKept(c, kept, m, Lines("---" + after));
    } else {
      assert kept + [LineOf(c, m)] == [LineOf(c, m)];
      ReadSkips(c, "---" + LineOf(c, m), Lines("---" + after));
    }
  }

  lemma ReadSkips<M>(c: Codec<M>, line: string, rest: seq<string>)
    requires line != "" && line[0] == '-'
    ensures ReadLines(c, [line] + [] + rest) == ReadLines(c, rest)
  {
    assert ([line] + [] + rest)[1..] == rest;
  }

  lemma ReadBehindKept<M(!new)>(c: Codec<M>, kept: seq<string>, m: M, rest: seq<string>)
    requires Lawful(c) && kept != [] && forall i :: 0 <= i < |kept| ==> Other(kept[i])
    ensures var front := kept + [LineOf(c, m)];
            ReadLines(c, ["---" + front[0]] + front[1..] + rest) == Ok(m)
  {
    var line := LineOf(c, m);
    var before := ["---" + kept[0]] + kept[1..];
    assert before[0][0] == '-';
    forall i | 0 <= i < |before| ensures !HasPrefix(before[i], PREFIX) {
      if i > 0 { OtherNoPrefix(kept[i]); }
    }
    ReadAfterOthers(c, before, m, rest);
    assert ["---" + kept[0]] + (kept + [line])[1..] + rest == before + [line] + rest;
  }

  /** A derived line behind the opening dashes, alone in its front matter: the injection succeeds
      and the value is lost, nothing being read but what stands behind the closing fence. */
  lemma OnlyDerivedLost<M(!new)>(c: Codec<M>, text: string, after: string, m: M)
    requires Lawful(c) && OneLine(text)
    ensures var content := "---" + ((KEY + text) + FENCE + after);
      && Injected(c, content, m).Some? && !Survives(content)
      && ReadLines(c, Lines(Injected(c, content, m).value)) == ReadLines(c, Lines("---" + after))
  {
    var inner := KEY + text;
    var content := "---" + (inner + FENCE + after);
    OneLineNoFence(inner);
    CutOf(inner, after);
    LinesOfLine(inner);
    PrefixOf(KEY, text);
    assert Filter([inner], Other) == [];
    ReadBack(c, content, m);
  }

  lemma {:induction false} OneLineNoFence(s: string)
    requires OneLine(s)
    ensures NoFence(s)
  {
    if s != "" {
      OneLineNoFence(s[1..]);
      assert s[0] in s;
      assert FENCE[0] == '\n';
    }
  }

  /** Two different values both read back exactly when some line of the front matter is kept. */
  lemma RoundTripIff<M(!new)>(c: Codec<M>, content: string, m1: M, m2: M)
    requires Lawful(c) && m1 != m2 && Injected(c, content, m1).Some? && Injected(c, content, m2).Some?
    ensures Survives(content) <==>
              && ReadLines(c, Lines(Injected(c, content, m1).value)) == Ok(m1)
              && ReadLines(c, Lines(Injected(c, content, m2).value)) == Ok(m2)
  {
    ReadBack(c, content, m1);
    ReadBack(c, content, m2);
  }
}
