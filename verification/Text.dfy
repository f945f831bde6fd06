/** Prefixes, lines and the fence that closes a front-matter block. */
module Text {
  import opened Sequences

  const FENCE: string := "\n---"

  predicate HasPrefix(s: string, p: string) {
    |p| <= |s| && s[..|p|] == p
  }

  lemma PrefixOf(p: string, s: string)
    ensures HasPrefix(p + s, p) && (p + s)[|p|..] == s
  {
  }

  /** Where the first fence starts. */
  function IndexFence(s: string): (r: Option<nat>)
    ensures r.Some? ==> r.value + 4 <= |s| && s[r.value..r.value + 4] == FENCE
  {
    if HasPrefix(s, FENCE) then Some(0)
    else if s == "" then None
    else match IndexFence(s[1..])
      case None => None
      case Some(i) => Some(i + 1)
  }

  ghost predicate NoFence(s: string) {
    s == "" || (!HasPrefix(s, FENCE) && NoFence(s[1..]))
  }

  /** The first fence after a text without one is the one right behind it. */
  lemma {:induction false} FirstFence(x: string, after: string)
    requires NoFence(x)
    ensures IndexFence(x + FENCE + after) == Some(|x|)
  {
    var s := x + FENCE + after;
    if x == "" {
      assert s[..4] == FENCE;
    } else {
      assert s[1..] == x[1..] + FENCE + after;
      FirstFence(x[1..], after);
      if |x| < 4 {
        assert s[..4][|x|] == '\n' != FENCE[|x|];
      } else {
        assert x[..4] == s[..4];
      }
    }
  }

  lemma {:induction false} BeforeFirstFence(s: string, i: nat)
    requires IndexFence(s) == Some(i)
    ensures NoFence(s[..i])
  {
    if i > 0 {
      assert !HasPrefix(s, FENCE);
      BeforeFirstFence(s[1..], i - 1);
      assert s[..i][1..] == s[1..][..i - 1];
      if i >= 4 { assert s[..4] == s[..i][..4]; }
    }
  }

  // ----- Lines -----

  /** The parts of a text between its newlines; a text has at least one. */
  function Lines(s: string): (r: seq<string>)
    ensures r != []
  {
    if s == "" then [""]
    else
      var r := Lines(s[1..]);
      if s[0] == '\n' then [""] + r else [[s[0]] + r[0]] + r[1..]
  }

  function Join(lines: seq<string>): string {
    if lines == [] then ""
    else if |lines| == 1 then lines[0]
    else lines[0] + "\n" + Join(lines[1..])
  }

  predicate OneLine(s: string) {
    '\n' !in s
  }

  lemma {:induction false} LinesOfLine(s: string)
    requires OneLine(s)
    ensures Lines(s) == [s]
  {
    if s != "" {
      LinesOfLine(s[1..]);
      assert s == [s[0]] + s[1..];
    }
  }

  lemma {:induction false} LinesAppend(a: string, b: string)
    ensures Lines(a + "\n" + b) == Lines(a) + Lines(b)
  {
    var s := a + "\n" + b;
    if a == "" {
      assert s[1..] == b;
    } else {
      assert s[1..] == a[1..] + "\n" + b;
      LinesAppend(a[1..], b);
    }
  }

  /** A start without newlines belongs to the first line. */
  lemma {:induction false} LinesOfStart(p: string, x: string)
    requires OneLine(p)
    ensures Lines(p + x) == [p + Lines(x)[0]] + Lines(x)[1..]
  {
    if p == "" {
      assert p + x == x && p + Lines(x)[0] == Lines(x)[0];
    } else {
      assert (p + x)[1..] == p[1..] + x;
      LinesOfStart(p[1..], x);
      assert [p[0]] + (p[1..] + Lines(x)[0]) == p + Lines(x)[0];
    }
  }

  lemma {:induction false} LinesAreLines(s: string)
    ensures forall i :: 0 <= i < |Lines(s)| ==> OneLine(Lines(s)[i])
  {
    if s != "" { LinesAreLines(s[1..]); }
  }

  lemma {:induction false} LinesOfJoin(lines: seq<string>)
    requires lines != [] && forall i :: 0 <= i < |lines| ==> OneLine(lines[i])
    ensures Lines(Join(lines)) == lines
  {
    LinesOfLine(lines[0]);
    if |lines| > 1 {
      LinesOfJoin(lines[1..]);
      LinesAppend(lines[0], Join(lines[1..]));
      assert lines == [lines[0]] + lines[1..];
    }
  }

  lemma {:induction false} FirstLinePrefix(s: string, p: string)
    requires OneLine(p)
    ensures HasPrefix(Lines(s)[0], p) <==> HasPrefix(s, p)
  {
    if p != "" && s != "" {
      FirstLinePrefix(s[1..], p[1..]);
      assert p == [p[0]] + p[1..];
      if s[0] != '\n' {
        assert Lines(s)[0] == [s[0]] + Lines(s[1..])[0];
        PrefixTail(Lines(s)[0], p);
        assert Lines(s)[0][1..] == Lines(s[1..])[0];
      }
      PrefixTail(s, p);
    }
  }

  lemma PrefixTail(s: string, p: string)
    requires s != "" && p != ""
    ensures HasPrefix(s, p) <==> s[0] == p[0] && HasPrefix(s[1..], p[1..])
  {
    if s[0] == p[0] && HasPrefix(s[1..], p[1..]) {
      assert s[..|p|] == [s[0]] + s[1..][..|p| - 1];
      assert p == [p[0]] + p[1..];
    }
    if HasPrefix(s, p) {
      assert s[1..][..|p| - 1] == s[..|p|][1..];
    }
  }

  /** No fence means no line but the first opens with three dashes. */
  lemma {:induction false} NoFenceByLines(s: string)
    ensures NoFence(s) <==> forall i :: 1 <= i < |Lines(s)| ==> !HasPrefix(Lines(s)[i], "---")
  {
    if s != "" {
      var t := s[1..];
      NoFenceByLines(t);
      FirstLinePrefix(t, "---");
      PrefixTail(s, FENCE);
      assert FENCE[1..] == "---";
      if s[0] == '\n' {
        assert Lines(s) == [""] + Lines(t);
        assert forall i :: 0 <= i < |Lines(t)| ==> Lines(s)[i + 1] == Lines(t)[i];
        if NoFence(s) {
          forall i | 1 <= i < |Lines(s)|
            ensures !HasPrefix(Lines(s)[i], "---")
          {
            assert Lines(s)[i] == Lines(t)[i - 1];
          }
        }
      } else {
        assert forall i :: 1 <= i < |Lines(t)| ==> Lines(s)[i] == Lines(t)[i];
      }
    }
  }
}
