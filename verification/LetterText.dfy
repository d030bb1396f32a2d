/** Just enough of regular expressions: backtracking, with groups, matches
    listed in the order an engine would try them. */
module Regexes {
  datatype Re =
    | One(accepts: char -> bool)
    | Then(first: Re, second: Re)
    | Either(first: Re, second: Re)
    | Star(body: Re, greedy: bool)
    | Group(n: nat, body: Re)
    | Back(n: nat)
    | WordBoundary
    | Nothing

  type Groups = map<nat, string>

  // Where a match ends, and what its groups took.
  datatype Hit = Hit(end: nat, groups: Groups)

  predicate IsWord(c: char) {
    'a' <= c <= 'z' || 'A' <= c <= 'Z' || '0' <= c <= '9' || c == '_'
  }

  function Lower(c: char): char {
    if 'A' <= c <= 'Z' then c - 'A' + 'a' else c
  }

  predicate SameIgnoringCase(a: string, b: string) {
    |a| == |b| && forall i :: 0 <= i < |a| ==> Lower(a[i]) == Lower(b[i])
  }

  predicate AtBoundary(s: string, i: nat)
    requires i <= |s|
  {
    (i > 0 && IsWord(s[i - 1])) != (i < |s| && IsWord(s[i]))
  }

  ghost predicate Forward(hits: seq<Hit>, i: nat, n: nat) {
    forall k :: 0 <= k < |hits| ==> i <= hits[k].end <= n
  }

  // Every way r can match at i, best first.
  function Matches(r: Re, s: string, i: nat, g: Groups): (hits: seq<Hit>)
    requires i <= |s|
    ensures Forward(hits, i, |s|)
    decreases |s| - i, r, 0
  {
    match r
    case Nothing => [Hit(i, g)]
    case One(accepts) => if i < |s| && accepts(s[i]) then [Hit(i + 1, g)] else []
    case WordBoundary => if AtBoundary(s, i) then [Hit(i, g)] else []
    case Back(n) =>
      if n in g && i + |g[n]| <= |s| && SameIgnoringCase(s[i..i + |g[n]|], g[n]) then [Hit(i + |g[n]|, g)] else []
    case Either(first, second) => Matches(first, s, i, g) + Matches(second, s, i, g)
    case Group(n, body) => Captured(Matches(body, s, i, g), n, s, i)
    case Then(first, second) => Continue(second, s, i, Matches(first, s, i, g), r)
    case Star(body, greedy) =>
      // A round that takes nothing is not taken.
      var more := Again(r, s, i, Matches(body, s, i, g));
      if greedy then more + [Hit(i, g)] else [Hit(i, g)] + more
  }

  function Captured(hits: seq<Hit>, n: nat, s: string, i: nat): (r: seq<Hit>)
    requires i <= |s| && Forward(hits, i, |s|)
    ensures Forward(r, i, |s|)
  {
    seq(|hits|, k requires 0 <= k < |hits| => Hit(hits[k].end, hits[k].groups[n := s[i..hits[k].end]]))
  }

  function Continue(second: Re, s: string, i: nat, hits: seq<Hit>, whole: Re): (r: seq<Hit>)
    requires i <= |s| && Forward(hits, i, |s|) && second < whole
    ensures Forward(r, i, |s|)
    ensures hits == [] ==> r == []
    decreases |s| - i, second, 1, |hits|
  {
    if hits == [] then []
    else
      Matches(second, s, hits[0].end, hits[0].groups) + Continue(second, s, i, hits[1..], whole)
  }

  function Again(star: Re, s: string, i: nat, hits: seq<Hit>): (r: seq<Hit>)
    requires i <= |s| && Forward(hits, i, |s|)
    ensures Forward(r, i, |s|)
    decreases |s| - i, star, -1, |hits|
  {
    if hits == [] then []
    else
      (if hits[0].end > i then Matches(star, s, hits[0].end, hits[0].groups) else []) + Again(star, s, i, hits[1..])
  }

  // s.replace(/r/g, f) from position i on; f is given the whole match's groups.
  function ReplaceMatches(r: Re, f: Groups -> string, s: string, i: nat): string
    requires i <= |s|
    decreases |s| - i
  {
    if i == |s| then ""
    else
      var hits := Matches(r, s, i, map[]);
      if hits != [] && hits[0].end > i then f(hits[0].groups) + ReplaceMatches(r, f, s, hits[0].end)
      else [s[i]] + ReplaceMatches(r, f, s, i + 1)
  }

  function ReplaceRe(r: Re, f: Groups -> string, s: string): string {
    ReplaceMatches(r, f, s, 0)
  }

  // ---- writing patterns ----

  function Char(c: char): Re {
    One(x => x == c)
  }

  function AnyCase(c: char): Re {
    One(x => Lower(x) == Lower(c))
  }

  function Word(w: string): Re {
    if w == "" then Nothing else Then(AnyCase(w[0]), Word(w[1..]))
  }

  function OneOf(words: seq<string>): Re {
    if words == [] then One(_ => false) else Either(Word(words[0]), OneOf(words[1..]))
  }

  function Sequence(parts: seq<Re>): Re {
    if parts == [] then Nothing else Then(parts[0], Sequence(parts[1..]))
  }

  // A pattern that begins with a literal matches nothing in a text without it.
  lemma {:induction false} NoFirstCharNoMatch(c: char, rest: Re, f: Groups -> string, s: string, i: nat)
    requires c !in s && i <= |s|
    ensures ReplaceMatches(Then(Char(c), rest), f, s, i) == s[i..]
    decreases |s| - i
  {
    if i < |s| {
      var r := Then(Char(c), rest);
      assert s[i] != c;
      assert Matches(Char(c), s, i, map[]) == [];
      assert Matches(r, s, i, map[]) == [];
      NoFirstCharNoMatch(c, rest, f, s, i + 1);
      assert s[i..] == [s[i]] + s[i + 1..];
    }
  }
}

/** Escaping customers' text into letters, and turning letters back into text. */
module LetterText {
  import opened Regexes

  // ---- plain replacements ----

  predicate StartsWith(s: string, prefix: string) {
    |prefix| <= |s| && s[..|prefix|] == prefix
  }

  // s.replace(/pattern/g, by) for a pattern without metacharacters.
  function ReplaceAll(s: string, pattern: string, by': string): string
    requires pattern != ""
  {
    if s == "" then ""
    else if StartsWith(s, pattern) then by' + ReplaceAll(s[|pattern|..], pattern, by')
    else [s[0]] + ReplaceAll(s[1..], pattern, by')
  }

  function EscapeHtml(value: string): string {
    ReplaceAll(ReplaceAll(ReplaceAll(ReplaceAll(value, "&", "&amp;"), "<", "&lt;"), ">", "&gt;"), "\"", "&quot;")
  }

  // ---- the tag patterns of htmlToText ----

  function Any(): Re {
    One(_ => true)
  }

  function NotChar(c: char): Re {
    One(x => x != c)
  }

  function Some1(r: Re): Re {
    Then(r, Star(r, true))
  }

  // <(script|style)[\s\S]*?<\/\1>
  function ScriptOrStyle(): Re {
    Then(Char('<'),
         Sequence([Group(1, OneOf(["script", "style"])), Star(Any(), false), Char('<'), Char('/'), Back(1), Char('>')]))
  }

  // <a\b[^>]*href="([^"]*)"[^>]*>([\s\S]*?)<\/a>
  function Link(): Re {
    Then(Char('<'), Sequence([AnyCase('a'), WordBoundary, Star(NotChar('>'), true), Word("href"), Char('='), Char('"'),
      Group(1, Star(NotChar('"'), true)), Char('"'), Star(NotChar('>'), true), Char('>'),
      Group(2, Star(Any(), false)), Char('<'), Char('/'), AnyCase('a'), Char('>')]))
  }

  // <br\s*\/?>
  function LineBreak(): Re {
    Then(Char('<'), Sequence([Word("br"), Star(One(c => IsSpace(c)), true), Either(Char('/'), Nothing), Char('>')]))
  }

  // <\/(p|div|h[1-6]|li|tr)>
  function BlockEnd(): Re {
    Then(Char('<'), Sequence([Char('/'),
      Group(1, OneOf(["p", "div", "h1", "h2", "h3", "h4", "h5", "h6", "li", "tr"])), Char('>')]))
  }

  // <[^>]+>
  function Tag(): Re {
    Then(Char('<'), Sequence([Some1(NotChar('>')), Char('>')]))
  }

  function Drop(g: Groups): string {
    ""
  }

  function NewLine(g: Groups): string {
    "\n"
  }

  function GroupOr(g: Groups, n: nat): string {
    if n in g then g[n] else ""
  }

  // A link keeps its address, beside its label when the label says more.
  function LinkText(g: Groups): string {
    var href := GroupOr(g, 1);
    var text := Trim(ReplaceRe(Tag(), Drop, GroupOr(g, 2)));
    if text != "" && text != href then text + " (" + href + ")" else href
  }

  // Scripts go, links become text, and what ends a line ends a line.
  function MarkLines(html: string): string {
    var s1 := ReplaceRe(ScriptOrStyle(), Drop, html);
    var s2 := ReplaceRe(Link(), LinkText, s1);
    var s3 := ReplaceRe(LineBreak(), NewLine, s2);
    ReplaceRe(BlockEnd(), NewLine, s3)
  }

  function StripTags(html: string): string {
    ReplaceRe(Tag(), Drop, MarkLines(html))
  }

  function DecodeEntities(s: string): string {
    var s1 := ReplaceAll(s, "&nbsp;", " ");
    var s2 := ReplaceAll(s1, "&lt;", "<");
    var s3 := ReplaceAll(s2, "&gt;", ">");
    var s4 := ReplaceAll(s3, "&quot;", "\"");
    var s5 := ReplaceAll(s4, "&#39;", "'");
    ReplaceAll(s5, "&amp;", "&")
  }

  // ---- tidying the white space ----

  // What JavaScript's trim() takes off.
  predicate IsSpace(c: char) {
    || '\t' <= c <= '\r' || c == ' ' || c == '\U{00A0}' || c == '\U{1680}' || '\U{2000}' <= c <= '\U{200A}'
    || c == '\U{2028}' || c == '\U{2029}' || c == '\U{202F}' || c == '\U{205F}' || c == '\U{3000}' || c == '\U{FEFF}'
  }

  function TrimStart(s: string): string {
    if s != "" && IsSpace(s[0]) then TrimStart(s[1..]) else s
  }

  function TrimEnd(s: string): string {
    if s != "" && IsSpace(s[|s| - 1]) then TrimEnd(s[..|s| - 1]) else s
  }

  function Trim(s: string): string {
    TrimEnd(TrimStart(s))
  }

  // Runs of blanks and tabs become one blank.
  function SqueezeBlanks(s: string): string {
    if s == "" then ""
    else if s[0] in " \t" then
      (if |s| > 1 && s[1] in " \t" then "" else " ") + SqueezeBlanks(s[1..])
    else [s[0]] + SqueezeBlanks(s[1..])
  }

  // Three or more line ends become two.
  function SqueezeLines(s: string): string {
    if s == "" then ""
    else if StartsWith(s, "\n\n\n") then SqueezeLines(s[1..])
    else [s[0]] + SqueezeLines(s[1..])
  }

  function Lines(s: string): (r: seq<string>)
    ensures r != []
  {
    if s == "" then [""]
    else if s[0] == '\n' then [""] + Lines(s[1..])
    else var rest := Lines(s[1..]); [[s[0]] + rest[0]] + rest[1..]
  }

  function Unlines(lines: seq<string>): string {
    if lines == [] then "" else if |lines| == 1 then lines[0] else lines[0] + "\n" + Unlines(lines[1..])
  }

  function TidyLines(lines: seq<string>): seq<string> {
    if lines == [] then [] else [Trim(SqueezeBlanks(lines[0]))] + TidyLines(lines[1..])
  }

  function Tidy(s: string): string {
    Trim(SqueezeLines(Unlines(TidyLines(Lines(s)))))
  }

  function HtmlToText(html: string): string {
    Tidy(DecodeEntities(StripTags(html)))
  }

  // ---- one character at a time ----

  // How a character stands once those in `plain` have been decoded.
  function Code(c: char, plain: set<char>): string {
    if c in plain then [c]
    else if c == '&' then "&amp;"
    else if c == '<' then "&lt;"
    else if c == '>' then "&gt;"
    else if c == '"' then "&quot;"
    else [c]
  }

  function Coded(s: string, plain: set<char>): string {
    if s == "" then "" else Code(s[0], plain) + Coded(s[1..], plain)
  }

  lemma {:induction false} ReplaceCharAcross(a: string, b: string, c: char, by': string)
    ensures ReplaceAll(a + b, [c], by') == ReplaceAll(a, [c], by') + ReplaceAll(b, [c], by')
  {
    if a == "" {
      assert a + b == b;
    } else {
      assert (a + b)[1..] == a[1..] + b;
      assert StartsWith(a + b, [c]) <==> StartsWith(a, [c]) by {
        assert (a + b)[..1] == [a[0]] == a[..1];
      }
      ReplaceCharAcross(a[1..], b, c, by');
    }
  }

  const SPECIAL := {'&', '<', '>', '"'}

  lemma CodeOfChar(c: char, d: char, plain: set<char>)
    requires d in SPECIAL && d in plain && if d == '&' then plain == SPECIAL else '&' !in plain
    ensures ReplaceAll(Code(c, plain), [d], Code(d, {})) == Code(c, plain - {d})
  {
    var code := Code(c, plain);
    if c == d {
      assert code == [d] && code[1..] == "";
    } else {
      CharAbsent(code, d, Code(d, {}));
    }
  }

  lemma {:induction false} CharAbsent(s: string, c: char, by': string)
    requires c !in s
    ensures ReplaceAll(s, [c], by') == s
  {
    if s != "" {
      assert s[..1] == [s[0]];
      CharAbsent(s[1..], c, by');
      assert s == [s[0]] + s[1..];
    }
  }

  // One of the four replacements, made on a text already partly escaped,
  // escapes one more character everywhere and touches nothing else.
  lemma {:induction false} EscapeOneMore(s: string, d: char, plain: set<char>)
    requires d in SPECIAL && d in plain && if d == '&' then plain == SPECIAL else '&' !in plain
    ensures ReplaceAll(Coded(s, plain), [d], Code(d, {})) == Coded(s, plain - {d})
  {
    if s != "" {
      ReplaceCharAcross(Code(s[0], plain), Coded(s[1..], plain), d, Code(d, {}));
      CodeOfChar(s[0], d, plain);
      EscapeOneMore(s[1..], d, plain);
    }
  }

  lemma {:induction false} NothingCoded(s: string)
    ensures Coded(s, SPECIAL) == s
  {
    if s != "" {
      NothingCoded(s[1..]);
      assert s == [s[0]] + s[1..];
    }
  }

  // Four replacements over the whole text are one code per character.
  lemma EscapeIsPerCharacter(s: string)
    ensures EscapeHtml(s) == Coded(s, {})
  {
    NothingCoded(s);
    EscapeOneMore(s, '&', SPECIAL);
    assert SPECIAL - {'&'} == {'<', '>', '"'};
    EscapeOneMore(s, '<', {'<', '>', '"'});
    assert {'<', '>', '"'} - {'<'} == {'>', '"'};
    EscapeOneMore(s, '>', {'>', '"'});
    assert {'>', '"'} - {'>'} == {'"'};
    EscapeOneMore(s, '"', {'"'});
    assert {'"'} - {'"'} == {};
  }

  // ---- escaped text carries no markup ----

  lemma {:induction false} NoMarkupLeft(s: string)
    ensures '<' !in Coded(s, {}) && '>' !in Coded(s, {}) && '"' !in Coded(s, {})
  {
    if s != "" {
      NoMarkupLeft(s[1..]);
    }
  }

  lemma StripTagsLeavesEscaped(s: string)
    requires '<' !in s
    ensures StripTags(s) == s
  {
    assert s[0..] == s;
    NoFirstCharNoMatch('<', ScriptOrStyle().second, Drop, s, 0);
    NoFirstCharNoMatch('<', Link().second, LinkText, s, 0);
    NoFirstCharNoMatch('<', LineBreak().second, NewLine, s, 0);
    NoFirstCharNoMatch('<', BlockEnd().second, NewLine, s, 0);
    NoFirstCharNoMatch('<', Tag().second, Drop, s, 0);
  }

  // ---- decoding ----

  // The entity does not begin anywhere inside this block, whatever follows.
  predicate Avoids(block: string, entity: string) {
    && (forall k :: 1 <= k < |block| ==> block[k] != '&')
    && (block != "" && block[0] == '&' ==> exists k :: 0 <= k < |block| && k < |entity| && block[k] != entity[k])
  }

  lemma DoesNotBegin(block: string, rest: string, entity: string)
    requires entity != "" && entity[0] == '&' && block != "" && Avoids(block, entity)
    ensures !StartsWith(block + rest, entity)
  {
  }

  lemma {:induction false} PassOver(block: string, rest: string, entity: string, by': string)
    requires entity != "" && entity[0] == '&' && Avoids(block, entity)
    ensures ReplaceAll(block + rest, entity, by') == block + ReplaceAll(rest, entity, by')
  {
    if block == "" {
      assert block + rest == rest;
    } else {
      var whole := block + rest;
      DoesNotBegin(block, rest, entity);
      assert whole[1..] == block[1..] + rest;
      assert Avoids(block[1..], entity);
      PassOver(block[1..], rest, entity, by');
      assert block == [block[0]] + block[1..];
    }
  }

  lemma CodesAvoid(c: char, plain: set<char>, entity: string)
    requires '&' !in plain && entity in ["&nbsp;", "&lt;", "&gt;", "&quot;", "&#39;", "&amp;"]
    requires Code(c, plain) != entity
    ensures Avoids(Code(c, plain), entity)
  {
    var block := Code(c, plain);
    if block[0] == '&' {
      assert block[1] != entity[1];
    }
  }

  // Replacing an entity by its character decodes that character and no other.
  lemma {:induction false} DecodeOneMore(s: string, d: char, plain: set<char>, entity: string)
    requires '&' !in plain && entity in ["&lt;", "&gt;", "&quot;", "&amp;"] && Code(d, plain) == entity
    ensures ReplaceAll(Coded(s, plain), entity, [d]) == Coded(s, plain + {d})
  {
    if s != "" {
      hide ReplaceAll, Code;
      DecodeOneMore(s[1..], d, plain, entity);
      DecodeBlock(s[0], Coded(s[1..], plain), d, plain, entity);
    }
  }

  lemma DecodeBlock(c: char, rest: string, d: char, plain: set<char>, entity: string)
    requires '&' !in plain && entity in ["&lt;", "&gt;", "&quot;", "&amp;"] && Code(d, plain) == entity
    ensures ReplaceAll(Code(c, plain) + rest, entity, [d]) == Code(c, plain + {d}) + ReplaceAll(rest, entity, [d])
  {
    var block := Code(c, plain);
    if block == entity {
      assert c == d;
      assert (block + rest)[..|entity|] == entity && (block + rest)[|entity|..] == rest;
    } else {
      CodesAvoid(c, plain, entity);
      hide ReplaceAll, Avoids;
      PassOver(block, rest, entity, [d]);
    }
  }

  // Entities that escaping never writes are never found.
  lemma {:induction false} ForeignEntity(s: string, plain: set<char>, entity: string, by': string)
    requires '&' !in plain && entity in ["&nbsp;", "&#39;"]
    ensures ReplaceAll(Coded(s, plain), entity, by') == Coded(s, plain)
  {
    if s != "" {
      assert Code(s[0], plain) != entity;
      CodesAvoid(s[0], plain, entity);
      ForeignEntity(s[1..], plain, entity, by');
      PassOver(Code(s[0], plain), Coded(s[1..], plain), entity, by');
    }
  }

  lemma DecodingUndoesEscaping(s: string)
    ensures DecodeEntities(Coded(s, {})) == s
  {
    hide ReplaceAll, Coded;
    ForeignEntity(s, {}, "&nbsp;", " ");
    DecodeOneMore(s, '<', {}, "&lt;");
    assert {} + {'<'} == {'<'};
    DecodeOneMore(s, '>', {'<'}, "&gt;");
    assert {'<'} + {'>'} == {'<', '>'};
    DecodeOneMore(s, '"', {'<', '>'}, "&quot;");
    assert {'<', '>'} + {'"'} == {'<', '>', '"'};
    ForeignEntity(s, {'<', '>', '"'}, "&#39;", "'");
    DecodeOneMore(s, '&', {'<', '>', '"'}, "&amp;");
    assert {'<', '>', '"'} + {'&'} == SPECIAL;
    NothingCoded(s);
  }

  // ---- every entity ----

  const ENTITIES := [
    ("&nbsp;", " "), ("&lt;", "<"), ("&gt;", ">"), ("&quot;", "\""), ("&#39;", "'"), ("&amp;", "&")]

  // The one entity of a text, and any of the six replacements.
  lemma OneReplacement(a: string, here: string, b: string, entity: string, by': string)
    requires '&' !in a && '&' !in b && entity != "" && entity[0] == '&' && (here == entity || Avoids(here, entity))
    ensures ReplaceAll(a + here + b, entity, by') == a + (if here == entity then by' else here) + b
  {
    hide Avoids, ReplaceAll;
    assert a + here + b == a + (here + b);
    assert Avoids(a, entity) by { NoAmpersand(a, entity); }
    PassOver(a, here + b, entity, by');
    NoReplacement(b, entity, by');
    if here == entity {
      Found(b, entity, by');
    } else {
      PassOver(here, b, entity, by');
    }
  }

  lemma Found(b: string, entity: string, by': string)
    requires entity != ""
    ensures ReplaceAll(entity + b, entity, by') == by' + ReplaceAll(b, entity, by')
  {
    assert (entity + b)[..|entity|] == entity && (entity + b)[|entity|..] == b;
  }

  lemma NoAmpersand(s: string, entity: string)
    requires '&' !in s
    ensures Avoids(s, entity)
  {
  }

  // No replacement finds anything in a text without an ampersand.
  lemma NoReplacement(s: string, entity: string, by': string)
    requires '&' !in s && entity != "" && entity[0] == '&'
    ensures ReplaceAll(s, entity, by') == s
  {
    hide Avoids;
    NoAmpersand(s, entity);
    PassOver(s, "", entity, by');
    assert s + "" == s;
  }

  lemma EntitiesAvoid(n: nat, k: nat)
    requires n < |ENTITIES| && k < |ENTITIES| && n != k
    ensures Avoids(ENTITIES[n].0, ENTITIES[k].0)
  {
    assert ENTITIES[n].0[1] != ENTITIES[k].0[1];
  }

  // Each of the six stands for its character, and what is around it stands.
  lemma EntitiesDecode(a: string, n: nat, b: string)
    requires n < |ENTITIES| && '&' !in a && '&' !in b
    ensures DecodeEntities(a + ENTITIES[n].0 + b) == a + ENTITIES[n].1 + b
  {
    StagesDecode(a, n, b, 6);
    SixStages(a + ENTITIES[n].0 + b);
  }

  function Stages(s: string, k: nat): string
    requires k <= |ENTITIES|
  {
    if k == 0 then s else ReplaceAll(Stages(s, k - 1), ENTITIES[k - 1].0, ENTITIES[k - 1].1)
  }

  lemma SixStages(s: string)
    ensures Stages(s, 6) == DecodeEntities(s)
  {
    hide ReplaceAll;
    assert Stages(s, 3) == ReplaceAll(ReplaceAll(ReplaceAll(s, "&nbsp;", " "), "&lt;", "<"), "&gt;", ">") by {
      assert Stages(s, 1) == ReplaceAll(s, "&nbsp;", " ");
      assert Stages(s, 2) == ReplaceAll(Stages(s, 1), "&lt;", "<");
    }
    assert Stages(s, 5) == ReplaceAll(Stages(s, 4), "&#39;", "'");
  }

  lemma {:induction false} StagesDecode(a: string, n: nat, b: string, k: nat)
    requires n < |ENTITIES| && '&' !in a && '&' !in b && k <= |ENTITIES|
    ensures Stages(a + ENTITIES[n].0 + b, k) == a + (if n < k then ENTITIES[n].1 else ENTITIES[n].0) + b
  {
    hide ReplaceAll, Avoids;
    if k > 0 {
      StagesDecode(a, n, b, k - 1);
      if n < k - 1 {
        NoReplacement(a + ENTITIES[n].1 + b, ENTITIES[k - 1].0, ENTITIES[k - 1].1);
      } else {
        if n != k - 1 {
          EntitiesAvoid(n, k - 1);
        }
        OneReplacement(a, ENTITIES[n].0, b, ENTITIES[k - 1].0, ENTITIES[k - 1].1);
      }
    }
  }

  // Whatever a customer typed, escaped into a letter and read back as text,
  // is what they typed, with its white space tidied.
  lemma EscapedTextReadsBack(s: string)
    ensures HtmlToText(EscapeHtml(s)) == Tidy(s)
  {
    EscapeIsPerCharacter(s);
    NoMarkupLeft(s);
    StripTagsLeavesEscaped(Coded(s, {}));
    DecodingUndoesEscaping(s);
  }

  // The order matters: with the ampersand decoded first, text that spells an
  // entity would be decoded twice.
  lemma AmpersandFirstDecodesTwice()
    ensures EscapeHtml("&lt;") == "&amp;lt;"
    ensures ReplaceAll(ReplaceAll("&amp;lt;", "&amp;", "&"), "&lt;", "<") == "<"
    ensures DecodeEntities("&amp;lt;") == "&lt;"
  {
    var typed, escaped := "&lt;", "&amp;lt;";
    EscapeIsPerCharacter(typed);
    SpelledOut();
    DecodingUndoesEscaping(typed);
    PassOver("lt;", "", "&amp;", "&");
    hide DecodeEntities, EscapeHtml, Coded;
    assert escaped[..5] == "&amp;" && escaped[5..] == "lt;" && "lt;" + "" == "lt;";
    assert ReplaceAll(escaped, "&amp;", "&") == "&" + "lt;";
    assert typed[..4] == "&lt;" && typed[4..] == "";
  }

  lemma SpelledOut()
    ensures Coded("&lt;", {}) == "&amp;lt;"
  {
  }

  // ---- no tag survives ----

  // Up to the next '>' from i on, or the end.
  function RunEnd(s: string, i: nat): (e: nat)
    requires i <= |s|
    ensures i <= e <= |s| && (e < |s| ==> s[e] == '>') && forall k :: i <= k < e ==> s[k] != '>'
    decreases |s| - i
  {
    if i < |s| && s[i] != '>' then RunEnd(s, i + 1) else i
  }

  // A tag: '<', at least one character, the first '>' after them.
  predicate TagAt(s: string, i: nat) {
    i < |s| && s[i] == '<' && RunEnd(s, i + 1) > i + 1 && RunEnd(s, i + 1) < |s|
  }

  lemma {:induction false} ContinueAcross(second: Re, s: string, i: nat, a: seq<Hit>, b: seq<Hit>, whole: Re)
    requires i <= |s| && Forward(a, i, |s|) && Forward(b, i, |s|) && Forward(a + b, i, |s|) && second < whole
    ensures Continue(second, s, i, a + b, whole) == Continue(second, s, i, a, whole) + Continue(second, s, i, b, whole)
    decreases |a|
  {
    if a == [] {
      assert a + b == b;
    } else {
      assert (a + b)[1..] == a[1..] + b;
      ContinueAcross(second, s, i, a[1..], b, whole);
    }
  }

  function Close(): Re {
    Then(Char('>'), Nothing)
  }

  lemma CloseAt(s: string, i: nat, g: Groups)
    requires i <= |s|
    ensures Matches(Close(), s, i, g) == if i < |s| && s[i] == '>' then [Hit(i + 1, g)] else []
  {
    var hits := Matches(Char('>'), s, i, g);
    if i < |s| && s[i] == '>' {
      assert hits == [Hit(i + 1, g)] && hits[1..] == [];
      assert Matches(Nothing, s, i + 1, g) == [Hit(i + 1, g)];
      assert Continue(Nothing, s, i, hits, Close()) == [Hit(i + 1, g)] + Continue(Nothing, s, i, hits[1..], Close());
    }
  }

  lemma StarAt(s: string, i: nat, g: Groups)
    requires i <= |s|
    ensures var star := Star(NotChar('>'), true);
            Matches(star, s, i, g) == (if i < |s| && s[i] != '>' then Matches(star, s, i + 1, g) else []) + [Hit(i, g)]
  {
    var star := Star(NotChar('>'), true);
    var one := Matches(NotChar('>'), s, i, g);
    if i < |s| && s[i] != '>' {
      assert one == [Hit(i + 1, g)] && one[1..] == [];
      assert Again(star, s, i, one) == Matches(star, s, i + 1, g) + Again(star, s, i, one[1..]);
    } else {
      assert one == [];
    }
  }

  lemma ContinueOne(second: Re, s: string, at: nat, i: nat, g: Groups, whole: Re)
    requires at <= i <= |s| && second < whole
    ensures Forward([Hit(i, g)], at, |s|)
    ensures Continue(second, s, at, [Hit(i, g)], whole) == Matches(second, s, i, g)
  {
  }

  // Backing off a greedy run of non-'>' never finds a '>' inside it.
  lemma {:induction false} RunThenClose(s: string, at: nat, i: nat, g: Groups, whole: Re)
    requires at <= i <= |s| && Close() < whole
    requires Forward(Matches(Star(NotChar('>'), true), s, i, g), at, |s|)
    ensures Continue(Close(), s, at, Matches(Star(NotChar('>'), true), s, i, g), whole)
            == if RunEnd(s, i) < |s| then [Hit(RunEnd(s, i) + 1, g)] else []
    decreases |s| - i
  {
    hide Matches, Continue, Again;
    var star := Star(NotChar('>'), true);
    CloseAt(s, i, g);
    StarAt(s, i, g);
    ContinueOne(Close(), s, at, i, g, whole);
    if i < |s| && s[i] != '>' {
      var more := Matches(star, s, i + 1, g);
      RunThenClose(s, at, i + 1, g, whole);
      ContinueAcross(Close(), s, at, more, [Hit(i, g)], whole);
    } else {
      assert [] + [Hit(i, g)] == [Hit(i, g)];
    }
  }

  lemma TagMatches(s: string, i: nat)
    requires i <= |s|
    ensures TagAt(s, i) ==>
              |Matches(Tag(), s, i, map[])| > 0 && Matches(Tag(), s, i, map[])[0].end == RunEnd(s, i + 1) + 1
    ensures !TagAt(s, i) ==> Matches(Tag(), s, i, map[]) == []
  {
    var body := Tag().second;
    var open := Matches(Char('<'), s, i, map[]);
    if i < |s| && s[i] == '<' {
      assert open == [Hit(i + 1, map[])] && open[1..] == [];
      BodyMatches(s, i + 1);
      assert Continue(body, s, i, open, Tag()) == Matches(body, s, i + 1, map[]);
    } else {
      assert open == [];
    }
  }

  lemma BodyMatches(s: string, i: nat)
    requires i <= |s|
    ensures Matches(Tag().second, s, i, map[])
            == if i < RunEnd(s, i) < |s| then [Hit(RunEnd(s, i) + 1, map[])] else []
  {
    hide Matches, Continue, Again;
    var whole := Tag().second;
    assert whole == Then(Some1(NotChar('>')), Close());
    PlusAt(s, i);
    ThenAt(s, i, whole);
    if i < |s| && s[i] != '>' {
      RunThenClose(s, i, i + 1, map[], whole);
    } else {
      NothingToContinue(s, i, whole);
    }
  }

  lemma ThenAt(s: string, i: nat, whole: Re)
    requires i <= |s| && whole == Then(Some1(NotChar('>')), Close())
    ensures Matches(whole, s, i, map[]) == Continue(Close(), s, i, Matches(Some1(NotChar('>')), s, i, map[]), whole)
  {
  }

  lemma NothingToContinue(s: string, i: nat, whole: Re)
    requires i <= |s| && Close() < whole
    ensures Continue(Close(), s, i, [], whole) == []
  {
  }

  lemma PlusAt(s: string, i: nat)
    requires i <= |s|
    ensures Matches(Some1(NotChar('>')), s, i, map[])
            == if i < |s| && s[i] != '>' then Matches(Star(NotChar('>'), true), s, i + 1, map[]) else []
  {
  }

  lemma PrependedTag(c: char, r: string, i: nat)
    requires i < |r|
    ensures TagAt([c] + r, i + 1) == TagAt(r, i)
  {
    if r[i] == '<' {
      RunEndShift(c, r, i + 1);
    }
  }

  lemma {:induction false} RunEndShift(c: char, r: string, i: nat)
    requires i <= |r|
    ensures RunEnd([c] + r, i + 1) == RunEnd(r, i) + 1
    decreases |r| - i
  {
    if i < |r| && r[i] != '>' {
      RunEndShift(c, r, i + 1);
    }
  }

  lemma {:induction false} StrippedIsTagFree(s: string, i: nat)
    requires i <= |s|
    ensures var r := ReplaceMatches(Tag(), Drop, s, i);
            && (forall k :: 0 <= k < |r| ==> !TagAt(r, k))
            && ((forall k :: i <= k < |s| ==> s[k] != '>') ==> '>' !in r)
            && (i < |s| && s[i] == '>' ==> r != "" && r[0] == '>')
    decreases |s| - i
  {
    hide Matches, ReplaceMatches, Tag;
    if i < |s| {
      StripStep(s, i);
      if TagAt(s, i) {
        assert s[RunEnd(s, i + 1)] == '>';
        StrippedIsTagFree(s, RunEnd(s, i + 1) + 1);
      } else {
        StrippedIsTagFree(s, i + 1);
        KeptChar(s, i, ReplaceMatches(Tag(), Drop, s, i + 1));
      }
    } else {
      assert ReplaceMatches(Tag(), Drop, s, i) == "" by { StripEnd(s); }
    }
  }

  lemma StripEnd(s: string)
    ensures ReplaceMatches(Tag(), Drop, s, |s|) == ""
  {
  }

  lemma StripStep(s: string, i: nat)
    requires i < |s|
    ensures ReplaceMatches(Tag(), Drop, s, i)
            == if TagAt(s, i) then ReplaceMatches(Tag(), Drop, s, RunEnd(s, i + 1) + 1)
               else [s[i]] + ReplaceMatches(Tag(), Drop, s, i + 1)
  {
    TagMatches(s, i);
    var hits := Matches(Tag(), s, i, map[]);
    if TagAt(s, i) {
      assert ReplaceMatches(Tag(), Drop, s, i) == Drop(hits[0].groups) + ReplaceMatches(Tag(), Drop, s, hits[0].end);
    }
  }

  // A character that is kept starts no tag in front of what is left behind it.
  lemma KeptChar(s: string, i: nat, rest: string)
    requires i < |s| && !TagAt(s, i) && forall k :: 0 <= k < |rest| ==> !TagAt(rest, k)
    requires (forall k :: i + 1 <= k < |s| ==> s[k] != '>') ==> '>' !in rest
    requires i + 1 < |s| && s[i + 1] == '>' ==> rest != "" && rest[0] == '>'
    ensures forall k :: 0 <= k < |[s[i]] + rest| ==> !TagAt([s[i]] + rest, k)
    ensures (forall k :: i <= k < |s| ==> s[k] != '>') ==> '>' !in [s[i]] + rest
  {
    var r := [s[i]] + rest;
    forall k | 0 <= k < |r| ensures !TagAt(r, k) {
      if k > 0 {
        PrependedTag(s[i], rest, k - 1);
      } else if s[i] == '<' {
        NoTagInFront(s, i, rest);
      }
    }
  }

  // An opening bracket that was left alone has its '>' right behind it, or none.
  lemma NoTagInFront(s: string, i: nat, rest: string)
    requires i < |s| && s[i] == '<' && !TagAt(s, i)
    requires (forall k :: i + 1 <= k < |s| ==> s[k] != '>') ==> '>' !in rest
    requires i + 1 < |s| && s[i + 1] == '>' ==> rest != "" && rest[0] == '>'
    ensures !TagAt(['<'] + rest, 0)
  {
  }

  // Whatever the letter's markup, nested, broken or unclosed: once the tags
  // have been taken out, no tag is left.
  lemma NoTagSurvives(html: string, i: nat)
    ensures !TagAt(StripTags(html), i)
  {
    hide ReplaceMatches, MarkLines, TagAt;
    StrippedIsTagFree(MarkLines(html), 0);
    if i >= |StripTags(html)| {
      NoTagPastTheEnd(StripTags(html), i);
    }
  }

  lemma NoTagPastTheEnd(s: string, i: nat)
    requires i >= |s|
    ensures !TagAt(s, i)
  {
  }
}
