/** Links parsed from a body, the keys a note may be linked under, and the backlinks query. */
module LinkQueries {
  import opened Sequences
  import opened Domain
  import opened NoteCaches
  import opened BacklinkRuns
  import opened Backlinks

  // ----- Parsing links -----

  /** One match of the wikilink pattern: whether it embeds, and the text of its target. */
  datatype Match = Match(embed: bool, target: string)

  function BeforeHash(s: string): string {
    if s == [] || s[0] == '#' then [] else [s[0]] + BeforeHash(s[1..])
  }

  /** The key of a match: trimmed, without heading, trimmed again, lower case. */
  function MatchKey(trim: string -> string, lower: string -> string, m: Match): Option<string> {
    var raw := trim(BeforeHash(trim(m.target)));
    if raw == "" then None else Some(lower(raw))
  }

  /** The first match with the given key says whether the link embeds. */
  function FirstMatch(trim: string -> string, lower: string -> string, matches: seq<Match>, key: string): Option<bool> {
    if matches == [] then None
    else
      var last := matches[|matches| - 1];
      match FirstMatch(trim, lower, matches[..|matches| - 1], key)
      case Some(e) => Some(e)
      case None => if MatchKey(trim, lower, last) == Some(key) then Some(last.embed) else None
  }

  function LinkTo(key: string, embed: Option<bool>): Option<OutLink> {
    match embed
    case Some(e) => Some(OutLink(key, e))
    case None => None
  }

  /** The position of the first match with the given key, the length if there is none. */
  function FirstAt(trim: string -> string, lower: string -> string, matches: seq<Match>, key: string): (i: nat)
    ensures i <= |matches|
    ensures i == |matches| <==> FirstMatch(trim, lower, matches, key).None?
  {
    if matches == [] then 0
    else
      var n := |matches| - 1;
      var i := FirstAt(trim, lower, matches[..n], key);
      if i < n || MatchKey(trim, lower, matches[n]) == Some(key) then i else n + 1
  }

  ghost predicate InOrder(trim: string -> string, lower: string -> string, matches: seq<Match>, links: seq<OutLink>) {
    && (forall i :: 0 <= i < |links| ==> FirstAt(trim, lower, matches, links[i].targetKey) < |matches|)
    && (forall i, j :: 0 <= i < j < |links| ==>
          FirstAt(trim, lower, matches, links[i].targetKey) < FirstAt(trim, lower, matches, links[j].targetKey))
  }

  lemma InOrderStep(trim: string -> string, lower: string -> string, before: seq<Match>, m: Match, links: seq<OutLink>)
    requires InOrder(trim, lower, before, links)
    ensures InOrder(trim, lower, before + [m], links)
    ensures forall k :: MatchKey(trim, lower, m) == Some(k) && FirstMatch(trim, lower, before, k).None? ==>
              InOrder(trim, lower, before + [m], links + [OutLink(k, m.embed)])
  {
    assert (before + [m])[..|before|] == before;
    forall i | 0 <= i < |links|
      ensures FirstAt(trim, lower, before + [m], links[i].targetKey) == FirstAt(trim, lower, before, links[i].targetKey)
    {
    }
  }

  /** One link for every key that has a match, in the order of the first matches. */
  ghost predicate ParsedFrom(trim: string -> string, lower: string -> string, matches: seq<Match>,
                             links: seq<OutLink>) {
    && DistinctKeys(links)
    && (forall k :: FindLink(links, k) == LinkTo(k, FirstMatch(trim, lower, matches, k)))
    && InOrder(trim, lower, matches, links)
  }

  lemma RepeatParsed(trim: string -> string, lower: string -> string, before: seq<Match>, m: Match, links: seq<OutLink>)
    requires ParsedFrom(trim, lower, before, links)
    requires MatchKey(trim, lower, m).None? || MatchKey(trim, lower, m).value in KeySet(links)
    ensures ParsedFrom(trim, lower, before + [m], links)
  {
    assert (before + [m])[..|before|] == before;
    InOrderStep(trim, lower, before, m, links);
    if MatchKey(trim, lower, m).Some? { FoundIffKey(links, MatchKey(trim, lower, m).value); }
  }

  lemma NewParsed(trim: string -> string, lower: string -> string, before: seq<Match>, m: Match, links: seq<OutLink>,
                  key: string)
    requires ParsedFrom(trim, lower, before, links)
    requires MatchKey(trim, lower, m) == Some(key) && key !in KeySet(links)
    ensures ParsedFrom(trim, lower, before + [m], links + [OutLink(key, m.embed)])
  {
    assert (before + [m])[..|before|] == before;
    FoundIffKey(links, key);
    InOrderStep(trim, lower, before, m, links);
    var links' := links + [OutLink(key, m.embed)];
    assert links'[..|links|] == links;
    forall i | 0 <= i < |links| ensures links[i].targetKey != key { assert links[i].targetKey in KeySet(links); }
  }

  // ----- What parsing promises, said of the matches alone -----

  /** The match is for this key: the target up to the first hash, trimmed before and after, not
      empty, in lower case. */
  ghost predicate KeyIs(trim: string -> string, lower: string -> string, m: Match, key: string) {
    exists head, rest ::
      && trim(m.target) == head + rest && '#' !in head && (rest == "" || rest[0] == '#')
      && trim(head) != "" && key == lower(trim(head))
  }

  lemma {:induction false} HashSplit(s: string)
    ensures var head := BeforeHash(s);
            |head| <= |s| && s == head + s[|head|..] && '#' !in head && (|head| == |s| || s[|head|] == '#')
  {
    if s != "" && s[0] != '#' {
      HashSplit(s[1..]);
      assert s[1..][|BeforeHash(s[1..])|..] == s[|BeforeHash(s)|..];
    }
  }

  lemma {:induction false} HeadUnique(s: string, head: string, rest: string)
    requires s == head + rest && '#' !in head && (rest == "" || rest[0] == '#')
    ensures head == BeforeHash(s)
  {
    if head == "" {
      assert s == rest;
    } else {
      assert s[1..] == head[1..] + rest && s[0] == head[0] && head[0] in head;
      HeadUnique(s[1..], head[1..], rest);
      assert head == [head[0]] + head[1..];
    }
  }

  lemma KeyMeans(trim: string -> string, lower: string -> string, m: Match, key: string)
    ensures KeyIs(trim, lower, m, key) <==> MatchKey(trim, lower, m) == Some(key)
  {
    var t := trim(m.target);
    HashSplit(t);
    if KeyIs(trim, lower, m, key) {
      var head, rest :| t == head + rest && '#' !in head && (rest == "" || rest[0] == '#')
                        && trim(head) != "" && key == lower(trim(head));
      HeadUnique(t, head, rest);
    }
    if MatchKey(trim, lower, m) == Some(key) {
      var head := BeforeHash(t);
      assert t == head + t[|head|..];
    }
  }

  lemma {:induction false} FirstAtMeans(trim: string -> string, lower: string -> string, matches: seq<Match>,
                                        key: string)
    ensures var i := FirstAt(trim, lower, matches, key);
            && (forall j :: 0 <= j < i ==> MatchKey(trim, lower, matches[j]) != Some(key))
            && (i < |matches| ==> MatchKey(trim, lower, matches[i]) == Some(key)
                                  && FirstMatch(trim, lower, matches, key) == Some(matches[i].embed))
  {
    if matches != [] {
      var n := |matches| - 1;
      FirstAtMeans(trim, lower, matches[..n], key);
      assert forall j :: 0 <= j < n ==> matches[..n][j] == matches[j];
    }
  }

  /** Link j comes from match at[j], the first for its key; links stand in match order, and every
      key that a match is for has one. */
  ghost predicate ParsedAt(trim: string -> string, lower: string -> string, matches: seq<Match>, links: seq<OutLink>,
                           at: seq<nat>)
  {
    && |at| == |links| && (forall i, j :: 0 <= i < j < |at| ==> at[i] < at[j])
    && (forall j :: 0 <= j < |at| ==> at[j] < |matches| && FirstFor(trim, lower, matches, at[j], links[j]))
    && (forall i, k :: 0 <= i < |matches| && KeyIs(trim, lower, matches[i], k) ==> LinksTo(links, k))
  }

  ghost predicate FirstFor(trim: string -> string, lower: string -> string, matches: seq<Match>, i: nat, l: OutLink)
    requires i < |matches|
  {
    && KeyIs(trim, lower, matches[i], l.targetKey) && l.isAsset == matches[i].embed
    && forall j :: 0 <= j < i ==> !KeyIs(trim, lower, matches[j], l.targetKey)
  }

  lemma ParsedMeans(trim: string -> string, lower: string -> string, matches: seq<Match>, links: seq<OutLink>)
    returns (at: seq<nat>)
    requires ParsedFrom(trim, lower, matches, links)
    ensures ParsedAt(trim, lower, matches, links, at)
  {
    at := seq(|links|, j requires 0 <= j < |links| => FirstAt(trim, lower, matches, links[j].targetKey));
    forall j | 0 <= j < |links| ensures at[j] < |matches| && FirstFor(trim, lower, matches, at[j], links[j]) {
      LinkFirst(trim, lower, matches, links, j);
    }
    forall i, k | 0 <= i < |matches| && KeyIs(trim, lower, matches[i], k) ensures LinksTo(links, k) {
      KeyMeans(trim, lower, matches[i], k);
      FirstAtMeans(trim, lower, matches, k);
      FoundIffKey(links, k);
    }
  }

  lemma LinkFirst(trim: string -> string, lower: string -> string, matches: seq<Match>, links: seq<OutLink>, j: nat)
    requires ParsedFrom(trim, lower, matches, links) && j < |links|
    ensures var i := FirstAt(trim, lower, matches, links[j].targetKey);
            i < |matches| && FirstFor(trim, lower, matches, i, links[j])
  {
    var key := links[j].targetKey;
    var i := FirstAt(trim, lower, matches, key);
    FirstAtMeans(trim, lower, matches, key);
    KeyMeans(trim, lower, matches[i], key);
    FoundOnce(links, j);
    forall n | 0 <= n < i ensures !KeyIs(trim, lower, matches[n], key) { KeyMeans(trim, lower, matches[n], key); }
  }

  lemma {:induction false} FoundOnce(links: seq<OutLink>, j: nat)
    requires DistinctKeys(links) && j < |links|
    ensures FindLink(links, links[j].targetKey) == Some(links[j])
    decreases |links|
  {
    var n := |links| - 1;
    if j < n {
      assert links[..n][j] == links[j];
      FoundOnce(links[..n], j);
    }
  }

  /** One link per key, in order of first appearance, with the flag of that appearance. */
  method ParseLinks(trim: string -> string, lower: string -> string, matches: seq<Match>) returns (links: seq<OutLink>)
    ensures DistinctKeys(links)
    ensures forall k :: FindLink(links, k) == LinkTo(k, FirstMatch(trim, lower, matches, k))
    ensures InOrder(trim, lower, matches, links)
    ensures exists at: seq<nat> :: ParsedAt(trim, lower, matches, links, at)
  {
    links := [];
    var seen: set<string> := {};
    for i := 0 to |matches|
      invariant seen == KeySet(links) && ParsedFrom(trim, lower, matches[..i], links)
    {
      var m := matches[i];
      assert matches[..i + 1] == matches[..i] + [m];
      var key := MatchKey(trim, lower, m);
      if key.Some? && key.value !in seen {
        NewParsed(trim, lower, matches[..i], m, links, key.value);
        ghost var before := links;
        links := links + [OutLink(key.value, m.embed)];
        assert links[..|links| - 1] == before;
        KeySetFront(links);
        seen := seen + {key.value};
      } else {
        RepeatParsed(trim, lower, matches[..i], m, links);
      }
    }
    assert matches[..|matches|] == matches;
    ghost var at := ParsedMeans(trim, lower, matches, links);
  }

  // ----- Keys a note may be linked under -----

  function TrimSlashes(s: string): string {
    if s != [] && s[|s| - 1] == '/' then TrimSlashes(s[..|s| - 1]) else s
  }

  function AfterLastSlash(s: string): string {
    if s == [] || s[|s| - 1] == '/' then [] else AfterLastSlash(s[..|s| - 1]) + [s[|s| - 1]]
  }

  /** The last element of a path. */
  function Base(path: string): string {
    if path == "" then "."
    else if TrimSlashes(path) == "" then "/"
    else AfterLastSlash(TrimSlashes(path))
  }

  /** The suffix from the last dot of the last path element, if any. */
  function Ext(s: string): string {
    if s == [] || s[|s| - 1] == '/' then []
    else if s[|s| - 1] == '.' then ['.']
    else
      var front := Ext(s[..|s| - 1]);
      if front == [] then [] else front + [s[|s| - 1]]
  }

  function TrimSuffix(s: string, suffix: string): string {
    if |suffix| <= |s| && s[|s| - |suffix|..] == suffix then s[..|s| - |suffix|] else s
  }

  /** The keys as computed, before empty and repeated ones are left out. */
  function CandidateKeys(lower: string -> string, path: string): seq<string> {
    var base := Base(path);
    var ext := Ext(base);
    [lower(TrimSuffix(base, ext)), lower(base), lower(TrimSuffix(path, ext)), lower(path)]
  }

  /** The non-empty strings of a list, each at its first place. */
  function Distinct(s: seq<string>): seq<string> {
    if s == [] then []
    else
      var front, last := Distinct(s[..|s| - 1]), s[|s| - 1];
      if last == "" || last in s[..|s| - 1] then front else front + [last]
  }

  lemma {:induction false} DistinctMembers(s: seq<string>)
    ensures NoDuplicates(Distinct(s)) && forall k :: k in Distinct(s) <==> k in s && k != ""
  {
    if s != [] {
      DistinctMembers(s[..|s| - 1]);
      assert s == s[..|s| - 1] + [s[|s| - 1]];
    }
  }

  lemma DistinctStep(s: seq<string>, x: string)
    ensures Distinct(s + [x]) == Distinct(s) + Part(x != "" && x !in s, x)
  {
    assert (s + [x])[..|s|] == s;
  }

  function Part(present: bool, key: string): seq<string> {
    if present then [key] else []
  }

  lemma DistinctTwo(a: string, b: string)
    ensures Distinct([a, b]) == Part(a != "", a) + Part(b != a && b != "", b)
  {
    DistinctStep([], a);
    DistinctStep([a], b);
    assert [] + [a] == [a] && [a] + [b] == [a, b];
  }

  lemma DistinctThree(a: string, b: string, c: string)
    ensures Distinct([a, b, c])
         == Part(a != "", a) + Part(b != a && b != "", b) + Part(c != a && c != b && c != "", c)
  {
    DistinctTwo(a, b);
    DistinctStep([a, b], c);
    assert [a, b] + [c] == [a, b, c];
  }

  lemma DistinctFour(a: string, b: string, c: string, d: string)
    ensures Distinct([a, b, c, d])
         == Part(a != "", a) + Part(b != a && b != "", b) + Part(c != a && c != b && c != "", c)
            + Part(d != a && d != b && d != c && d != "", d)
  {
    DistinctThree(a, b, c);
    DistinctStep([a, b, c], d);
    assert [a, b, c] + [d] == [a, b, c, d];
  }

  // ----- What the keys are, from the parts of a path -----

  /** A path of a directory, a stem and an extension that opens with the last dot, if there is one. */
  ghost predicate PathParts(path: string, dir: string, stem: string, ext: string) {
    && path == dir + stem + ext && (dir == "" || dir[|dir| - 1] == '/')
    && '/' !in stem && '/' !in ext && stem + ext != ""
    && (if ext == "" then '.' !in stem else ext[0] == '.' && '.' !in ext[1..])
  }

  lemma {:induction false} AfterSlash(dir: string, base: string)
    requires (dir == "" || dir[|dir| - 1] == '/') && '/' !in base
    ensures AfterLastSlash(dir + base) == base
  {
    if base == "" {
      assert dir + base == dir;
    } else {
      var n := |base| - 1;
      assert base == base[..n] + [base[n]];
      assert (dir + base)[..|dir + base| - 1] == dir + base[..n];
      AfterSlash(dir, base[..n]);
    }
  }

  lemma {:induction false} NoExt(s: string)
    requires '/' !in s && '.' !in s
    ensures Ext(s) == ""
  {
    if s != "" { NoExt(s[..|s| - 1]); }
  }

  lemma {:induction false} ExtOf(stem: string, ext: string)
    requires ext != "" && ext[0] == '.' && '.' !in ext[1..] && '/' !in ext
    ensures Ext(stem + ext) == ext
  {
    var s, n := stem + ext, |ext| - 1;
    assert s[|s| - 1] == ext[n];
    if n == 0 {
      assert ext == ['.'];
    } else {
      assert ext[n] == ext[1..][n - 1] && ext == ext[..n] + [ext[n]];
      assert s[..|s| - 1] == stem + ext[..n];
      assert forall c :: c in ext[..n][1..] ==> c in ext[1..] by { assert ext[..n][1..] == ext[1..][..n - 1]; }
      ExtOf(stem, ext[..n]);
    }
  }

  lemma TrimSuffixOf(s: string, suffix: string)
    ensures TrimSuffix(s + suffix, suffix) == s
  {
    assert (s + suffix)[|s|..] == suffix && (s + suffix)[..|s|] == s;
  }

  /** The keys of a path: its stem, its base name, the path without the extension, the path. */
  lemma CandidatesMean(lower: string -> string, path: string, dir: string, stem: string, ext: string)
    requires PathParts(path, dir, stem, ext)
    ensures CandidateKeys(lower, path) == [lower(stem), lower(stem + ext), lower(dir + stem), lower(path)]
  {
    var base := stem + ext;
    assert path == dir + base && path[|path| - 1] == base[|base| - 1] && base[|base| - 1] in base;
    AfterSlash(dir, base);
    assert Base(path) == base;
    if ext == "" { assert base == stem; NoExt(stem); } else { ExtOf(stem, ext); }
    TrimSuffixOf(stem, ext);
    TrimSuffixOf(dir + stem, ext);
  }

  lemma {:induction false} SlashParts(s: string)
    ensures var base := AfterLastSlash(s);
            |base| <= |s| && s == s[..|s| - |base|] + base && '/' !in base
            && (|base| < |s| ==> s[|s| - |base| - 1] == '/')
  {
    if s != "" && s[|s| - 1] != '/' {
      SlashParts(s[..|s| - 1]);
    }
  }

  /** Every path that does not end in a slash has such parts. */
  lemma PartsExist(path: string) returns (dir: string, stem: string, ext: string)
    requires path != "" && path[|path| - 1] != '/'
    ensures PathParts(path, dir, stem, ext)
  {
    var base;
    dir, base := SplitBase(path);
    stem, ext := BaseParts(base);
    assert dir + (stem + ext) == dir + stem + ext;
  }

  lemma SplitBase(path: string) returns (dir: string, base: string)
    requires path != "" && path[|path| - 1] != '/'
    ensures path == dir + base && base != "" && '/' !in base && (dir == "" || dir[|dir| - 1] == '/')
  {
    SlashParts(path);
    base := AfterLastSlash(path);
    dir := path[..|path| - |base|];
  }

  lemma {:induction false} BaseParts(base: string) returns (stem: string, ext: string)
    requires '/' !in base
    ensures base == stem + ext && '/' !in stem && '/' !in ext
    ensures if ext == "" then '.' !in stem else ext[0] == '.' && '.' !in ext[1..]
  {
    if base == "" { return "", ""; }
    var front, x := base[..|base| - 1], base[|base| - 1];
    assert base == front + [x];
    if x == '.' { return front, [x]; }
    stem, ext := BaseParts(front);
    if ext == "" { return base, ""; }
    assert (ext + [x])[1..] == ext[1..] + [x] && base == stem + (ext + [x]);
    ext := ext + [x];
  }

  /** keys are the non-empty strings of the list, each at its first place, in order. */
  ghost predicate FirstPlaces(list: seq<string>, keys: seq<string>) {
    exists at: seq<nat> :: FirstAtPlaces(list, keys, at)
  }

  ghost predicate FirstAtPlaces(list: seq<string>, keys: seq<string>, at: seq<nat>) {
    && |at| == |keys| && (forall i, j :: 0 <= i < j < |at| ==> at[i] < at[j])
    && (forall i :: 0 <= i < |at| ==> at[i] < |list| && keys[i] == list[at[i]] != "" && keys[i] !in list[..at[i]])
    && (forall x :: x in list && x != "" ==> x in keys)
  }

  lemma PlacesNext(list: seq<string>, keys: seq<string>, at: seq<nat>, x: string)
    requires FirstAtPlaces(list, keys, at)
    ensures x != "" && x !in list ==> FirstAtPlaces(list + [x], keys + [x], at + [|list|])
    ensures x == "" || x in list ==> FirstAtPlaces(list + [x], keys, at)
  {
    var list', at' := list + [x], at + [|list|];
    forall i | 0 <= i < |at| ensures list'[at[i]] == list[at[i]] && list'[..at[i]] == list[..at[i]] { }
    assert list'[..|list|] == list;
  }

  lemma {:induction false} DistinctPlaces(list: seq<string>)
    ensures FirstPlaces(list, Distinct(list))
    decreases |list|
  {
    if list == [] {
      assert FirstAtPlaces(list, [], []);
    } else {
      var front, x := list[..|list| - 1], list[|list| - 1];
      assert list == front + [x];
      DistinctPlaces(front);
      var at: seq<nat> :| FirstAtPlaces(front, Distinct(front), at);
      PlacesNext(front, Distinct(front), at, x);
    }
  }

  method LinkMatchKeys(lower: string -> string, path: string) returns (keys: seq<string>)
    ensures forall dir, stem, ext :: PathParts(path, dir, stem, ext) ==>
              FirstPlaces([lower(stem), lower(stem + ext), lower(dir + stem), lower(path)], keys)
    ensures keys == Distinct(CandidateKeys(lower, path))
    ensures NoDuplicates(keys)
    ensures forall k :: k in keys <==> k in CandidateKeys(lower, path) && k != ""
  {
    var base := Base(path);
    var ext := Ext(base);
    var k0, k1 := lower(TrimSuffix(base, ext)), lower(base);
    var k2, k3 := lower(TrimSuffix(path, ext)), lower(path);
    keys := Keys(k0, k1, k2, k3);
    DistinctMembers(CandidateKeys(lower, path));
    DistinctPlaces(CandidateKeys(lower, path));
    forall dir, stem, ext | PathParts(path, dir, stem, ext)
      ensures FirstPlaces([lower(stem), lower(stem + ext), lower(dir + stem), lower(path)], keys)
    {
      CandidatesMean(lower, path, dir, stem, ext);
    }
  }

  method Keys(k0: string, k1: string, k2: string, k3: string) returns (keys: seq<string>)
    ensures keys == Distinct([k0, k1, k2, k3])
  {
    keys := [];
    if k0 != "" { keys := keys + [k0]; }
    if k1 != k0 && k1 != "" { keys := keys + [k1]; }
    if k2 != k0 && k2 != k1 && k2 != "" { keys := keys + [k2]; }
    if k3 != k0 && k3 != k1 && k3 != k2 && k3 != "" { keys := keys + [k3]; }
    DistinctFour(k0, k1, k2, k3);
  }

  // ----- The backlinks query -----

  datatype BacklinkEntry = BacklinkEntry(summary: NoteSummary, isAsset: bool)

  predicate Counts(includeAssets: bool, isAsset: bool) {
    includeAssets || !isAsset
  }

  /** A naive look through one note's links: the flag of the first key it links to. */
  function LinkedUnder(links: seq<OutLink>, keys: seq<string>, includeAssets: bool): Option<bool> {
    if keys == [] then None
    else
      match LinkedUnder(links, keys[..|keys| - 1], includeAssets)
      case Some(a) => Some(a)
      case None =>
        match FindLink(links, keys[|keys| - 1])
        case Some(l) => if Counts(includeAssets, l.isAsset) then Some(l.isAsset) else None
        case None => None
  }

  /** The flag of the first qualifying inverse entry of a note. */
  function FirstEntry(srcs: seq<BacklinkSrc>, path: string, includeAssets: bool): Option<bool> {
    if srcs == [] then None
    else
      var last := srcs[|srcs| - 1];
      match FirstEntry(srcs[..|srcs| - 1], path, includeAssets)
      case Some(a) => Some(a)
      case None => if last.path == path && Counts(includeAssets, last.isAsset) then Some(last.isAsset) else None
  }

  /** All inverse entries in the order the query meets them. */
  function Candidates(back: BackLinks, keys: seq<string>): seq<BacklinkSrc> {
    if keys == [] then [] else Candidates(back, keys[..|keys| - 1]) + SrcsAt(back, keys[|keys| - 1])
  }

  lemma {:induction false} FirstEntryAppend(a: seq<BacklinkSrc>, b: seq<BacklinkSrc>, path: string, includeAssets: bool)
    ensures FirstEntry(a + b, path, includeAssets) ==
      match FirstEntry(a, path, includeAssets) case Some(f) => Some(f) case None => FirstEntry(b, path, includeAssets)
    decreases |b|
  {
    if b == [] {
      assert a + b == a;
    } else {
      assert (a + b)[..|a + b| - 1] == a + b[..|b| - 1];
      FirstEntryAppend(a, b[..|b| - 1], path, includeAssets);
    }
  }

  lemma {:induction false} FirstEntryMember(srcs: seq<BacklinkSrc>, path: string, includeAssets: bool)
    ensures var f := FirstEntry(srcs, path, includeAssets);
      && (f.Some? ==> BacklinkSrc(path, f.value) in srcs && Counts(includeAssets, f.value))
      && (f.None? ==> forall a :: BacklinkSrc(path, a) in srcs ==> !Counts(includeAssets, a))
  {
    if srcs != [] {
      assert srcs == srcs[..|srcs| - 1] + [srcs[|srcs| - 1]];
      FirstEntryMember(srcs[..|srcs| - 1], path, includeAssets);
    }
  }

  /** Under one key the inverse index agrees with the note's own links. */
  lemma KeyAgrees(out: OutLinks, back: BackLinks, key: string, path: string, includeAssets: bool)
    requires Inverse(out, back) && DistinctKeys(LinksAt(out, path))
    ensures FirstEntry(SrcsAt(back, key), path, includeAssets) ==
      match FindLink(LinksAt(out, path), key)
      case Some(l) => if Counts(includeAssets, l.isAsset) then Some(l.isAsset) else None
      case None => None
  {
    var srcs, links := SrcsAt(back, key), LinksAt(out, path);
    FirstEntryMember(srcs, path, includeAssets);
    forall a ensures BacklinkSrc(path, a) in srcs <==> FindLink(links, key) == Some(OutLink(key, a)) {
      assert Mirrored(out, back, key, path, a);
      LinkCount(links, OutLink(key, a));
      assert BacklinkSrc(path, a) in srcs <==> BacklinkSrc(path, a) in multiset(srcs);
    }
  }

  lemma {:induction false} CandidatesAgree(out: OutLinks, back: BackLinks, keys: seq<string>, path: string,
                                           includeAssets: bool)
    requires Inverse(out, back) && DistinctKeys(LinksAt(out, path))
    ensures FirstEntry(Candidates(back, keys), path, includeAssets)
      == LinkedUnder(LinksAt(out, path), keys, includeAssets)
  {
    if keys != [] {
      var n := |keys| - 1;
      CandidatesAgree(out, back, keys[..n], path, includeAssets);
      KeyAgrees(out, back, keys[n], path, includeAssets);
      FirstEntryAppend(Candidates(back, keys[..n]), SrcsAt(back, keys[n]), path, includeAssets);
    }
  }

  /** Every note with links is cached under its key. */
  ghost predicate CacheCovers(notes: map<string, NoteSummary>, out: OutLinks, indexKey: string -> string) {
    && Keyed(notes, indexKey)
    && forall p :: p in out ==> indexKey(p) in notes && notes[indexKey(p)].ref.path == p
  }

  /** What the query has collected after meeting srcs. */
  ghost predicate Collected(notes: map<string, NoteSummary>, indexKey: string -> string, matches: NoteSummary -> bool,
                            includeAssets: bool, srcs: seq<BacklinkSrc>, seen: set<string>, entries: seq<BacklinkEntry>)
  {
    && (forall p :: p in seen <==> FirstEntry(srcs, p, includeAssets).Some?)
    && (forall i, j :: 0 <= i < j < |entries| ==> entries[i].summary.ref.path != entries[j].summary.ref.path)
    && (forall i :: 0 <= i < |entries| ==> EntryOk(notes, indexKey, matches, includeAssets, srcs, entries[i]))
    && (forall p :: p in seen && indexKey(p) in notes && matches(notes[indexKey(p)]) ==>
          exists i :: 0 <= i < |entries| && entries[i].summary.ref.path == p)
  }

  ghost predicate EntryOk(notes: map<string, NoteSummary>, indexKey: string -> string, matches: NoteSummary -> bool,
                          includeAssets: bool, srcs: seq<BacklinkSrc>, e: BacklinkEntry)
  {
    && indexKey(e.summary.ref.path) in notes && notes[indexKey(e.summary.ref.path)] == e.summary
    && matches(e.summary)
    && FirstEntry(srcs, e.summary.ref.path, includeAssets) == Some(e.isAsset)
  }

  lemma EntryStaysOk(notes: map<string, NoteSummary>, indexKey: string -> string, matches: NoteSummary -> bool,
                     includeAssets: bool, srcs: seq<BacklinkSrc>, more: seq<BacklinkSrc>, e: BacklinkEntry)
    requires EntryOk(notes, indexKey, matches, includeAssets, srcs, e)
    ensures EntryOk(notes, indexKey, matches, includeAssets, srcs + more, e)
  {
    FirstEntryAppend(srcs, more, e.summary.ref.path, includeAssets);
  }

  /** One inverse entry's turn. */
  method Visit(cache: NoteCache, indexKey: string -> string, matches: NoteSummary -> bool, includeAssets: bool,
               ghost out: OutLinks, ghost srcs: seq<BacklinkSrc>, src: BacklinkSrc, seen: set<string>,
               entries: seq<BacklinkEntry>)
    returns (seen': set<string>, entries': seq<BacklinkEntry>)
    requires CacheCovers(cache.notes, out, indexKey) && src.path in out
    requires Collected(cache.notes, indexKey, matches, includeAssets, srcs, seen, entries)
    ensures Collected(cache.notes, indexKey, matches, includeAssets, srcs + [src], seen', entries')
  {
    seen', entries' := seen, entries;
    assert (srcs + [src])[..|srcs|] == srcs;
    forall i | 0 <= i < |entries|
      ensures EntryOk(cache.notes, indexKey, matches, includeAssets, srcs + [src], entries[i])
    {
      EntryStaysOk(cache.notes, indexKey, matches, includeAssets, srcs, [src], entries[i]);
    }
    if !includeAssets && src.isAsset {
      return;
    }
    if src.path in seen {
      return;
    }
    seen' := seen + {src.path};
    var s := cache.Get(indexKey(src.path));
    if s.None? {
      return;
    }
    if !matches(s.value) {
      return;
    }
    entries' := entries + [BacklinkEntry(s.value, src.isAsset)];
    forall p | p in seen' && indexKey(p) in cache.notes && matches(cache.notes[indexKey(p)])
      ensures exists i :: 0 <= i < |entries'| && entries'[i].summary.ref.path == p
    {
      if p in seen {
        var i :| 0 <= i < |entries| && entries[i].summary.ref.path == p;
        assert entries'[i].summary.ref.path == p;
      } else {
        assert entries'[|entries|].summary.ref.path == p;
      }
    }
  }

  /** The turn of one key's whole inverse list. */
  method VisitAll(cache: NoteCache, indexKey: string -> string, matches: NoteSummary -> bool, includeAssets: bool,
                  ghost out: OutLinks, ghost before: seq<BacklinkSrc>, srcs: seq<BacklinkSrc>,
                  seen: set<string>, entries: seq<BacklinkEntry>)
    returns (seen': set<string>, entries': seq<BacklinkEntry>)
    requires CacheCovers(cache.notes, out, indexKey) && forall j :: 0 <= j < |srcs| ==> srcs[j].path in out
    requires Collected(cache.notes, indexKey, matches, includeAssets, before, seen, entries)
    ensures Collected(cache.notes, indexKey, matches, includeAssets, before + srcs, seen', entries')
  {
    seen', entries' := seen, entries;
    ghost var met := before;
    for j := 0 to |srcs|
      invariant Collected(cache.notes, indexKey, matches, includeAssets, met, seen', entries')
      invariant |met| == |before| + j && met == (before + srcs)[..|met|]
    {
      seen', entries' := Visit(cache, indexKey, matches, includeAssets, out, met, srcs[j], seen', entries');
      assert (before + srcs)[|met|] == srcs[j];
      met := met + [srcs[j]];
    }
    assert met == before + srcs;
  }

  lemma ShownCovered(notes: map<string, NoteSummary>, shown: OutLinks, out: OutLinks, back: BackLinks,
                     indexKey: string -> string)
    requires CacheCovers(notes, out, indexKey) && Inverse(shown, back) && Tracks(shown, out) && AllDistinct(out)
    ensures CacheCovers(notes, shown, indexKey) && AllDistinct(shown)
  {
    forall p ensures (p in shown ==> p in out) && DistinctKeys(LinksAt(shown, p)) {
      assert TracksAt(shown, out, p);
      SameKeysSameLinks(LinksAt(shown, p), LinksAt(out, p), "");
    }
  }

  /** The backlinks of a path's keys. For every cached note the query agrees with a naive look
      through the note's shown links: it is listed, once and with the flag of its first matching
      key, exactly when it links to one of the keys and passes the filter. With assets included
      the notes are exactly those whose recorded links name a key, and as long as no flag has
      drifted the shown links can be read as the recorded ones. */
  method QueryBacklinks(cache: NoteCache, graph: BacklinkGraph, indexKey: string -> string, keys: seq<string>,
                        includeAssets: bool, matches: NoteSummary -> bool) returns (entries: seq<BacklinkEntry>)
    requires graph.Valid() && CacheCovers(cache.notes, graph.outLinks, indexKey) && AllDistinct(graph.outLinks)
    ensures forall i, j :: 0 <= i < j < |entries| ==> entries[i].summary.ref.path != entries[j].summary.ref.path
    ensures forall i :: 0 <= i < |entries| ==> entries[i].summary in cache.notes.Values
    ensures ListsLinkers(cache.notes, graph.shown, matches, keys, includeAssets, entries)
    ensures ListsNamed(cache.notes, graph.shown, matches, keys, includeAssets, entries)
    ensures FlagsAgree(graph.shown, graph.outLinks) ==>
              ListsLinkers(cache.notes, graph.outLinks, matches, keys, includeAssets, entries)
    ensures includeAssets ==> forall s :: s in cache.notes.Values ==>
              ((exists a :: BacklinkEntry(s, a) in entries)
                <==> matches(s) && NamesOne(LinksAt(graph.outLinks, s.ref.path), keys))
  {
    ghost var out, back := graph.shown, graph.backlinks;
    ShownCovered(cache.notes, graph.shown, graph.outLinks, back, indexKey);
    var seen: set<string>;
    seen, entries := {}, [];
    for i := 0 to |keys|
      invariant Collected(cache.notes, indexKey, matches, includeAssets, Candidates(back, keys[..i]), seen, entries)
    {
      var srcs := SrcsAt(graph.backlinks, keys[i]);
      forall j | 0 <= j < |srcs| ensures srcs[j].path in out { EntryIsLink(out, back, keys[i], srcs[j]); }
      seen, entries :=
        VisitAll(cache, indexKey, matches, includeAssets, out, Candidates(back, keys[..i]), srcs, seen, entries);
      assert keys[..i + 1][..i] == keys[..i];
    }
    assert keys[..|keys|] == keys;
    NaiveAgrees(cache.notes, out, back, indexKey, matches, keys, includeAssets, seen, entries);
    RecordedAgrees(cache.notes, graph.shown, graph.outLinks, matches, keys, includeAssets, entries);
    ListsMeans(cache.notes, graph.shown, graph.outLinks, matches, keys, includeAssets, entries);
  }

  /** Of every cached note: listed with a flag exactly when it matches and its links, looked
      through key by key, give that flag first. */
  /** Of the keys that the links name, leaving out embeds unless assets are asked for, the first one
      is named with flag a. */
  ghost predicate FirstNamed(links: seq<OutLink>, keys: seq<string>, includeAssets: bool, a: bool) {
    exists i :: FirstNamedAt(links, keys, includeAssets, a, i)
  }

  ghost predicate FirstNamedAt(links: seq<OutLink>, keys: seq<string>, includeAssets: bool, a: bool, i: int) {
    && 0 <= i < |keys| && OutLink(keys[i], a) in links && (includeAssets || !a)
    && forall j :: 0 <= j < i ==> Ignored(links, keys[j], includeAssets)
  }

  /** No key is named, embeds left out unless assets are asked for. */
  ghost predicate NoneNamed(links: seq<OutLink>, keys: seq<string>, includeAssets: bool) {
    forall j :: 0 <= j < |keys| ==> Ignored(links, keys[j], includeAssets)
  }

  predicate Ignored(links: seq<OutLink>, k: string, includeAssets: bool) {
    forall b :: OutLink(k, b) in links ==> b && !includeAssets
  }

  lemma FoundMeans(links: seq<OutLink>, k: string, a: bool)
    requires DistinctKeys(links)
    ensures FindLink(links, k) == Some(OutLink(k, a)) <==> OutLink(k, a) in links
  {
    LinkCount(links, OutLink(k, a));
    assert OutLink(k, a) in links <==> OutLink(k, a) in multiset(links);
  }

  lemma IgnoredMeans(links: seq<OutLink>, k: string, includeAssets: bool)
    requires DistinctKeys(links)
    ensures Ignored(links, k, includeAssets)
      <==> FindLink(links, k).None? || !Counts(includeAssets, FindLink(links, k).value.isAsset)
  {
    FoundMeans(links, k, true);
    FoundMeans(links, k, false);
  }

  lemma {:induction false} NoneMeans(links: seq<OutLink>, keys: seq<string>, includeAssets: bool)
    requires DistinctKeys(links)
    ensures LinkedUnder(links, keys, includeAssets).None? <==> NoneNamed(links, keys, includeAssets)
    decreases |keys|
  {
    if keys != [] {
      var n := |keys| - 1;
      assert forall j :: 0 <= j < n ==> keys[..n][j] == keys[j];
      NoneMeans(links, keys[..n], includeAssets);
      IgnoredMeans(links, keys[n], includeAssets);
    }
  }

  lemma {:induction false} LinkedMeans(links: seq<OutLink>, keys: seq<string>, includeAssets: bool, a: bool)
    requires DistinctKeys(links)
    ensures LinkedUnder(links, keys, includeAssets) == Some(a) <==> FirstNamed(links, keys, includeAssets, a)
    decreases |keys|
  {
    if keys != [] {
      var n := |keys| - 1;
      NamedNext(links, keys, includeAssets, a);
      LinkedMeans(links, keys[..n], includeAssets, a);
      NoneMeans(links, keys[..n], includeAssets);
      FoundMeans(links, keys[n], a);
      if FirstNamed(links, keys[..n], includeAssets, !a) { LinkedMeans(links, keys[..n], includeAssets, !a); }
    }
  }

  lemma NamedNext(links: seq<OutLink>, keys: seq<string>, includeAssets: bool, a: bool)
    requires keys != []
    ensures var front, k := keys[..|keys| - 1], keys[|keys| - 1];
      FirstNamed(links, keys, includeAssets, a) <==>
        || FirstNamed(links, front, includeAssets, a)
        || (OutLink(k, a) in links && (includeAssets || !a) && NoneNamed(links, front, includeAssets))
  {
    var n := |keys| - 1;
    var front := keys[..n];
    assert forall j :: 0 <= j < n ==> front[j] == keys[j];
    if FirstNamed(links, front, includeAssets, a) {
      var i :| FirstNamedAt(links, front, includeAssets, a, i);
      assert FirstNamedAt(links, keys, includeAssets, a, i);
    }
    if OutLink(keys[n], a) in links && (includeAssets || !a) && NoneNamed(links, front, includeAssets) {
      assert FirstNamedAt(links, keys, includeAssets, a, n);
    }
    if FirstNamed(links, keys, includeAssets, a) {
      var i :| FirstNamedAt(links, keys, includeAssets, a, i);
      if i < n { assert FirstNamedAt(links, front, includeAssets, a, i); }
    }
  }

  ghost predicate ListsNamed(notes: map<string, NoteSummary>, out: OutLinks, matches: NoteSummary -> bool,
                             keys: seq<string>, includeAssets: bool, entries: seq<BacklinkEntry>)
  {
    forall s, a :: s in notes.Values ==>
      (BacklinkEntry(s, a) in entries
       <==> matches(s) && FirstNamed(LinksAt(out, s.ref.path), keys, includeAssets, a))
  }

  lemma ListsMeans(notes: map<string, NoteSummary>, shown: OutLinks, out: OutLinks, matches: NoteSummary -> bool,
                   keys: seq<string>, includeAssets: bool, entries: seq<BacklinkEntry>)
    requires ListsLinkers(notes, shown, matches, keys, includeAssets, entries) && Tracks(shown, out) && AllDistinct(out)
    ensures ListsNamed(notes, shown, matches, keys, includeAssets, entries)
  {
    forall s, a | s in notes.Values
      ensures BacklinkEntry(s, a) in entries
        <==> matches(s) && FirstNamed(LinksAt(shown, s.ref.path), keys, includeAssets, a)
    {
      assert TracksAt(shown, out, s.ref.path);
      LinkedMeans(LinksAt(shown, s.ref.path), keys, includeAssets, a);
    }
  }

  ghost predicate ListsLinkers(notes: map<string, NoteSummary>, out: OutLinks, matches: NoteSummary -> bool,
                               keys: seq<string>, includeAssets: bool, entries: seq<BacklinkEntry>)
  {
    forall s, a :: s in notes.Values ==>
      (BacklinkEntry(s, a) in entries
       <==> matches(s) && LinkedUnder(LinksAt(out, s.ref.path), keys, includeAssets) == Some(a))
  }

  ghost predicate NamesOne(links: seq<OutLink>, keys: seq<string>) {
    exists i :: 0 <= i < |keys| && keys[i] in KeySet(links)
  }

  lemma {:induction false} LinkedIffNamed(links: seq<OutLink>, keys: seq<string>)
    ensures LinkedUnder(links, keys, true).Some? <==> NamesOne(links, keys)
  {
    if keys != [] {
      var n := |keys| - 1;
      LinkedIffNamed(links, keys[..n]);
      FoundIffKey(links, keys[n]);
      if NamesOne(links, keys[..n]) {
        var i :| 0 <= i < n && keys[..n][i] in KeySet(links);
        assert keys[i] in KeySet(links);
      }
      if NamesOne(links, keys) {
        var i :| 0 <= i < |keys| && keys[i] in KeySet(links);
        if i < n { assert keys[..n][i] in KeySet(links); }
      }
    }
  }

  lemma {:induction false} SameLinked(a: seq<OutLink>, b: seq<OutLink>, keys: seq<string>, includeAssets: bool)
    requires SameKeys(a, b) && FlagsKept(a, b)
    ensures LinkedUnder(a, keys, includeAssets) == LinkedUnder(b, keys, includeAssets)
  {
    if keys != [] {
      SameLinked(a, b, keys[..|keys| - 1], includeAssets);
      SameFind(a, b, keys[|keys| - 1]);
    }
  }

  lemma RecordedAgrees(notes: map<string, NoteSummary>, shown: OutLinks, out: OutLinks, matches: NoteSummary -> bool,
                       keys: seq<string>, includeAssets: bool, entries: seq<BacklinkEntry>)
    requires Tracks(shown, out) && ListsLinkers(notes, shown, matches, keys, includeAssets, entries)
    ensures FlagsAgree(shown, out) ==> ListsLinkers(notes, out, matches, keys, includeAssets, entries)
    ensures includeAssets ==> forall s :: s in notes.Values ==>
              ((exists a :: BacklinkEntry(s, a) in entries) <==> matches(s) && NamesOne(LinksAt(out, s.ref.path), keys))
  {
    forall s | s in notes.Values
      ensures FlagsAgree(shown, out) ==>
                LinkedUnder(LinksAt(shown, s.ref.path), keys, includeAssets)
                  == LinkedUnder(LinksAt(out, s.ref.path), keys, includeAssets)
      ensures includeAssets ==>
                ((exists a :: BacklinkEntry(s, a) in entries)
                 <==> matches(s) && NamesOne(LinksAt(out, s.ref.path), keys))
    {
      var a, b := LinksAt(shown, s.ref.path), LinksAt(out, s.ref.path);
      assert TracksAt(shown, out, s.ref.path);
      if FlagsAgree(shown, out) { SameLinked(a, b, keys, includeAssets); }
      LinkedIffNamed(a, keys);
      LinkedIffNamed(b, keys);
      assert NamesOne(a, keys) <==> NamesOne(b, keys);
      var l := LinkedUnder(a, keys, includeAssets);
      if l.Some? { assert BacklinkEntry(s, l.value) in entries <==> matches(s); }
    }
  }

  predicate SameAnswer(shown: OutLinks, out: OutLinks, p: string, keys: seq<string>, includeAssets: bool) {
    LinkedUnder(LinksAt(shown, p), keys, includeAssets) == LinkedUnder(LinksAt(out, p), keys, includeAssets)
  }

  /** Every query reads the shown links as the recorded ones exactly when no flag has drifted. */
  lemma QueriesAgreeIff(shown: OutLinks, out: OutLinks)
    requires Tracks(shown, out)
    ensures (forall p, keys, includeAssets :: SameAnswer(shown, out, p, keys, includeAssets))
      <==> FlagsAgree(shown, out)
  {
    if FlagsAgree(shown, out) {
      forall p, keys, includeAssets ensures SameAnswer(shown, out, p, keys, includeAssets) {
        assert TracksAt(shown, out, p);
        SameLinked(LinksAt(shown, p), LinksAt(out, p), keys, includeAssets);
      }
    } else {
      var p :| !FlagsKept(LinksAt(shown, p), LinksAt(out, p));
      var a, b := LinksAt(shown, p), LinksAt(out, p);
      var k :| FindLink(a, k).Some? && FindLink(b, k).Some? && FindLink(a, k) != FindLink(b, k);
      assert [k][..0] == [];
      assert LinkedUnder(a, [k], true) == Some(FindLink(a, k).value.isAsset);
      assert LinkedUnder(b, [k], true) == Some(FindLink(b, k).value.isAsset);
      assert !SameAnswer(shown, out, p, [k], true);
    }
  }

  lemma NaiveAgrees(notes: map<string, NoteSummary>, out: OutLinks, back: BackLinks, indexKey: string -> string,
                    matches: NoteSummary -> bool, keys: seq<string>, includeAssets: bool,
                    seen: set<string>, entries: seq<BacklinkEntry>)
    requires Inverse(out, back) && CacheCovers(notes, out, indexKey) && AllDistinct(out)
    requires Collected(notes, indexKey, matches, includeAssets, Candidates(back, keys), seen, entries)
    ensures ListsLinkers(notes, out, matches, keys, includeAssets, entries)
  {
    forall s, a | s in notes.Values
      ensures BacklinkEntry(s, a) in entries
        <==> matches(s) && LinkedUnder(LinksAt(out, s.ref.path), keys, includeAssets) == Some(a)
    {
      var p := s.ref.path;
      var k :| k in notes && notes[k] == s;
      assert indexKey(p) == k;
      CandidatesAgree(out, back, keys, p, includeAssets);
      if BacklinkEntry(s, a) in entries {
        var i :| 0 <= i < |entries| && entries[i] == BacklinkEntry(s, a);
        assert EntryOk(notes, indexKey, matches, includeAssets, Candidates(back, keys), entries[i]);
      }
      if matches(s) && LinkedUnder(LinksAt(out, p), keys, includeAssets) == Some(a) {
        assert p in seen;
        var i :| 0 <= i < |entries| && entries[i].summary.ref.path == p;
        assert EntryOk(notes, indexKey, matches, includeAssets, Candidates(back, keys), entries[i]);
        assert entries[i] == BacklinkEntry(s, a);
      }
    }
  }
}
