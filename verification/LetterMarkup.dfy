/** What the markup of a letter says once it is text: line ends where blocks
    and lines end, links with their address, nothing for any other tag. */
module LetterMarkup {
  import opened Regexes
  import opened LetterText

  // ---- how a pattern first matches ----

  ghost predicate First(r: Re, s: string, i: nat, g: Groups, hit: Hit)
    requires i <= |s|
  {
    Matches(r, s, i, g) != [] && Matches(r, s, i, g)[0] == hit
  }

  ghost predicate Fails(r: Re, s: string, i: nat, g: Groups)
    requires i <= |s|
  {
    Matches(r, s, i, g) == []
  }

  lemma OneMatches(accepts: char -> bool, s: string, i: nat, g: Groups)
    requires i <= |s|
    ensures if i < |s| && accepts(s[i]) then First(One(accepts), s, i, g, Hit(i + 1, g))
            && |Matches(One(accepts), s, i, g)| == 1
            else Fails(One(accepts), s, i, g)
  {
  }

  lemma {:induction false} ContinueFirst(second: Re, s: string, i: nat, hits: seq<Hit>, whole: Re, hit: Hit)
    requires i <= |s| && Forward(hits, i, |s|) && second < whole && hits != []
    requires First(second, s, hits[0].end, hits[0].groups, hit)
    ensures Continue(second, s, i, hits, whole) != [] && Continue(second, s, i, hits, whole)[0] == hit
  {
  }

  ghost predicate NoneGoesOn(second: Re, s: string, hits: seq<Hit>) {
    forall k :: 0 <= k < |hits| ==> hits[k].end <= |s| && Fails(second, s, hits[k].end, hits[k].groups)
  }

  lemma {:induction false} ContinueFails(second: Re, s: string, i: nat, hits: seq<Hit>, whole: Re)
    requires i <= |s| && Forward(hits, i, |s|) && second < whole
    requires NoneGoesOn(second, s, hits)
    ensures Continue(second, s, i, hits, whole) == []
    decreases |hits|
  {
    if hits != [] {
      assert Forward(hits[1..], i, |s|);
      ContinueFails(second, s, i, hits[1..], whole);
    }
  }

  // The first match goes on from the first match of the first part.
  lemma ThenFirst(first: Re, second: Re, s: string, i: nat, g: Groups, mid: Hit, hit: Hit)
    requires i <= |s| && First(first, s, i, g, mid) && mid.end <= |s| && First(second, s, mid.end, mid.groups, hit)
    ensures First(Then(first, second), s, i, g, hit)
  {
    ContinueFirst(second, s, i, Matches(first, s, i, g), Then(first, second), hit);
  }

  lemma ThenIs(first: Re, second: Re, s: string, i: nat, g: Groups)
    requires i <= |s|
    ensures Matches(Then(first, second), s, i, g)
            == Continue(second, s, i, Matches(first, s, i, g), Then(first, second))
  {
  }

  lemma ThenFails(first: Re, second: Re, s: string, i: nat, g: Groups)
    requires i <= |s| && NoneGoesOn(second, s, Matches(first, s, i, g))
    ensures Fails(Then(first, second), s, i, g)
  {
    ThenIs(first, second, s, i, g);
    hide Matches, NoneGoesOn;
    ContinueFails(second, s, i, Matches(first, s, i, g), Then(first, second));
  }

  lemma StarStops(accepts: char -> bool, s: string, i: nat, g: Groups)
    requires i <= |s| && Fails(One(accepts), s, i, g)
    ensures First(Star(One(accepts), true), s, i, g, Hit(i, g))
  {
  }

  // ---- words ----

  predicate WordAt(w: string, s: string, i: nat) {
    i + |w| <= |s| && forall k :: 0 <= k < |w| ==> Lower(s[i + k]) == Lower(w[k])
  }

  lemma WordStarts(w: string, s: string, i: nat)
    requires w != ""
    ensures WordAt(w, s, i) ==> LetterAt(s, i, Lower(w[0]))
  {
    if WordAt(w, s, i) {
      assert Lower(s[i + 0]) == Lower(w[0]);
    }
  }

  lemma WordGoesOn(w: string, s: string, i: nat)
    requires w != "" && LetterAt(s, i, Lower(w[0]))
    ensures WordAt(w, s, i) <==> WordAt(w[1..], s, i + 1)
  {
    if WordAt(w[1..], s, i + 1) {
      forall k | 0 <= k < |w| ensures Lower(s[i + k]) == Lower(w[k]) {
        if k > 0 {
          assert Lower(s[i + 1 + (k - 1)]) == Lower(w[1..][k - 1]);
        }
      }
    }
    if WordAt(w, s, i) {
      forall k | 0 <= k < |w[1..]| ensures Lower(s[i + 1 + k]) == Lower(w[1..][k]) {
        assert Lower(s[i + (k + 1)]) == Lower(w[k + 1]);
      }
    }
  }

  lemma {:induction false} WordMatches(w: string, s: string, i: nat, g: Groups)
    requires i <= |s|
    ensures Matches(Word(w), s, i, g) == if WordAt(w, s, i) then [Hit(i + |w|, g)] else []
    decreases |w|
  {
    if w == "" {
      assert Matches(Nothing, s, i, g) == [Hit(i, g)];
    } else {
      var rest := Word(w[1..]);
      ThenIs(AnyCase(w[0]), rest, s, i, g);
      WordStarts(w, s, i);
      LetterMatches(w[0], s, i, g);
      hide Matches, WordAt, Word;
      assert Word(w) == Then(AnyCase(w[0]), rest) by { WordIs(w); }
      if LetterAt(s, i, Lower(w[0])) {
        WordGoesOn(w, s, i);
        WordMatches(w[1..], s, i + 1, g);
        ContinueOne(rest, s, i, i + 1, g, Word(w));
      }
    }
  }

  lemma WordIs(w: string)
    requires w != ""
    ensures Word(w) == Then(AnyCase(w[0]), Word(w[1..]))
  {
  }

  lemma LetterMatches(c: char, s: string, i: nat, g: Groups)
    requires i <= |s|
    ensures Matches(AnyCase(c), s, i, g) == if LetterAt(s, i, Lower(c)) then [Hit(i + 1, g)] else []
  {
  }

  // None of the words begins here.
  lemma {:induction false} NoneOfMatches(words: seq<string>, s: string, i: nat, g: Groups)
    requires i <= |s| && forall k :: 0 <= k < |words| ==> !WordAt(words[k], s, i)
    ensures Fails(OneOf(words), s, i, g)
    decreases |words|
  {
    if words != [] {
      WordMatches(words[0], s, i, g);
      NoneOfMatches(words[1..], s, i, g);
    }
  }

  // The n-th of them does, and none before it.
  lemma {:induction false} FirstOfMatches(words: seq<string>, n: nat, s: string, i: nat, g: Groups)
    requires i <= |s| && n < |words| && WordAt(words[n], s, i)
    requires forall k :: 0 <= k < n ==> !WordAt(words[k], s, i)
    ensures First(OneOf(words), s, i, g, Hit(i + |words[n]|, g))
    decreases |words|
  {
    WordMatches(words[0], s, i, g);
    if n > 0 {
      FirstOfMatches(words[1..], n - 1, s, i, g);
    }
  }

  // ---- replacing ----

  lemma PassOne(r: Re, f: Groups -> string, s: string, i: nat)
    requires i < |s| && Fails(r, s, i, map[])
    ensures ReplaceMatches(r, f, s, i) == [s[i]] + ReplaceMatches(r, f, s, i + 1)
  {
  }

  lemma TakeOne(r: Re, f: Groups -> string, s: string, i: nat, hit: Hit)
    requires i < hit.end <= |s| && First(r, s, i, map[], hit)
    ensures ReplaceMatches(r, f, s, i) == f(hit.groups) + ReplaceMatches(r, f, s, hit.end)
  {
  }

  lemma AtTheEnd(r: Re, f: Groups -> string, s: string)
    ensures ReplaceMatches(r, f, s, |s|) == ""
  {
  }

  // Where a pattern matches nowhere, it leaves the text alone.
  lemma {:induction false} SkipTo(r: Re, f: Groups -> string, s: string, i: nat, j: nat)
    requires i <= j <= |s| && forall k :: i <= k < j ==> Fails(r, s, k, map[])
    ensures ReplaceMatches(r, f, s, i) == s[i..j] + ReplaceMatches(r, f, s, j)
    decreases j - i
  {
    hide Fails, ReplaceMatches;
    if i < j {
      PassOne(r, f, s, i);
      SkipTo(r, f, s, i + 1, j);
      assert s[i..j] == [s[i]] + s[i + 1..j];
    } else {
      assert s[i..j] == "";
    }
  }

  lemma ReplaceNone(r: Re, f: Groups -> string, s: string)
    requires forall k :: 0 <= k < |s| ==> Fails(r, s, k, map[])
    ensures ReplaceRe(r, f, s) == s
  {
    hide Fails, ReplaceMatches;
    SkipTo(r, f, s, 0, |s|);
    AtTheEnd(r, f, s);
    assert s[0..|s|] == s;
  }

  // One match, and no other before it or after it.
  lemma ReplaceOnce(r: Re, f: Groups -> string, s: string, at: nat, hit: Hit)
    requires at < hit.end <= |s| && First(r, s, at, map[], hit)
    requires forall k :: 0 <= k < at || hit.end <= k < |s| ==> Fails(r, s, k, map[])
    ensures ReplaceRe(r, f, s) == s[..at] + f(hit.groups) + s[hit.end..]
  {
    hide Fails, First, ReplaceMatches;
    SkipTo(r, f, s, 0, at);
    TakeOne(r, f, s, at, hit);
    SkipTo(r, f, s, hit.end, |s|);
    AtTheEnd(r, f, s);
    assert s[0..at] == s[..at] && s[hit.end..|s|] == s[hit.end..];
  }

  // ---- where the patterns can begin ----

  lemma BracketOnly(rest: Re, s: string, i: nat, g: Groups)
    requires i < |s|
    ensures s[i] != '<' ==> Fails(Then(Char('<'), rest), s, i, g)
    ensures s[i] == '<' ==> Matches(Then(Char('<'), rest), s, i, g) == Matches(rest, s, i + 1, g)
  {
    var hits := Matches(Char('<'), s, i, g);
    if s[i] == '<' {
      assert hits == [Hit(i + 1, g)] && hits[1..] == [];
      assert Continue(rest, s, i, hits, Then(Char('<'), rest))
               == Matches(rest, s, i + 1, g) + Continue(rest, s, i, hits[1..], Then(Char('<'), rest));
    } else {
      assert hits == [];
    }
  }

  predicate LetterAt(s: string, i: nat, c: char) {
    i < |s| && Lower(s[i]) == c
  }

  lemma ScriptNeedsS(s: string, i: nat)
    requires i < |s| && !(s[i] == '<' && LetterAt(s, i + 1, 's'))
    ensures Fails(ScriptOrStyle(), s, i, map[])
  {
    ScriptOrStyleIs();
    hide Matches, ScriptOrStyle, OneOf, FromEndTag, WordAt;
    BracketOnly(ScriptOrStyle().second, s, i, map[]);
    if s[i] == '<' {
      WordStarts("script", s, i + 1);
      WordStarts("style", s, i + 1);
      NoneOfMatches(SILENT, s, i + 1, map[]);
      GroupFails(1, OneOf(SILENT), s, i + 1, map[]);
      ThenFails(Group(1, OneOf(SILENT)), ScriptOrStyle().second.second, s, i + 1, map[]);
    }
  }

  lemma GroupFails(n: nat, body: Re, s: string, i: nat, g: Groups)
    requires i <= |s| && Fails(body, s, i, g)
    ensures Fails(Group(n, body), s, i, g)
  {
  }

  lemma LinkNeedsA(s: string, i: nat)
    requires i < |s| && !(s[i] == '<' && LetterAt(s, i + 1, 'a'))
    ensures Fails(Link(), s, i, map[])
  {
    LinkIs();
    hide Matches, Link, Attribute;
    BracketOnly(Link().second, s, i, map[]);
    if s[i] == '<' {
      LetterMatches('a', s, i + 1, map[]);
      ThenFails(AnyCase('a'), Link().second.second, s, i + 1, map[]);
    }
  }

  lemma BreakNeedsB(s: string, i: nat)
    requires i < |s| && !(s[i] == '<' && LetterAt(s, i + 1, 'b'))
    ensures Fails(LineBreak(), s, i, map[])
  {
    BracketOnly(LineBreak().second, s, i, map[]);
    if s[i] == '<' {
      WordMatches("br", s, i + 1, map[]);
      WordStarts("br", s, i + 1);
      assert Matches(Word("br"), s, i + 1, map[]) == [];
    }
  }

  lemma BlockNeedsSlash(s: string, i: nat)
    requires i < |s| && !(s[i] == '<' && i + 1 < |s| && s[i + 1] == '/')
    ensures Fails(BlockEnd(), s, i, map[])
  {
    BracketOnly(BlockEnd().second, s, i, map[]);
    if s[i] == '<' {
      assert Matches(Char('/'), s, i + 1, map[]) == [];
    }
  }

  // ---- a text with one tag in it ----

  // `a` and `b` as they stand in a letter, and a tag between them.
  predicate Around(a: string, tag: string, b: string) {
    '<' !in a && '<' !in b && |tag| >= 2 && tag[0] == '<' && '<' !in tag[1..]
  }

  lemma OneBracket(a: string, tag: string, b: string)
    requires Around(a, tag, b)
    ensures var s := a + tag + b;
            forall k :: 0 <= k < |s| ==> (s[k] == '<' <==> k == |a|)
    ensures (a + tag + b)[|a| + 1] == tag[1]
  {
    var s := a + tag + b;
    forall k | 0 <= k < |s| ensures s[k] == '<' <==> k == |a| {
      if k < |a| {
        assert s[k] == a[k];
      } else if k < |a| + |tag| {
        assert s[k] == tag[k - |a|];
        if k > |a| {
          assert tag[k - |a|] == tag[1..][k - |a| - 1];
        }
      } else {
        assert s[k] == b[k - |a| - |tag|];
      }
    }
  }

  lemma FirstPassesLeave(a: string, tag: string, b: string)
    requires Around(a, tag, b) && Lower(tag[1]) != 's' && Lower(tag[1]) != 'a'
    ensures ReplaceRe(ScriptOrStyle(), Drop, a + tag + b) == a + tag + b
    ensures ReplaceRe(Link(), LinkText, a + tag + b) == a + tag + b
  {
    hide Fails, ScriptOrStyle, Link, ReplaceRe;
    var s := a + tag + b;
    OneBracket(a, tag, b);
    forall k | 0 <= k < |s| ensures Fails(ScriptOrStyle(), s, k, map[]) && Fails(Link(), s, k, map[]) {
      ScriptNeedsS(s, k);
      LinkNeedsA(s, k);
    }
    ReplaceNone(ScriptOrStyle(), Drop, s);
    ReplaceNone(Link(), LinkText, s);
  }

  lemma NoTagsLeft(s: string)
    requires '<' !in s
    ensures ReplaceRe(LineBreak(), NewLine, s) == s && ReplaceRe(BlockEnd(), NewLine, s) == s
    ensures ReplaceRe(Tag(), Drop, s) == s
  {
    assert s[0..] == s;
    NoFirstCharNoMatch('<', LineBreak().second, NewLine, s, 0);
    NoFirstCharNoMatch('<', BlockEnd().second, NewLine, s, 0);
    NoFirstCharNoMatch('<', Tag().second, Drop, s, 0);
  }

  // ---- line breaks ----

  lemma BreakMatches(s: string, i: nat)
    requires i + 4 <= |s| && s[i] == '<' && Lower(s[i + 1]) == 'b' && Lower(s[i + 2]) == 'r' && s[i + 3] == '>'
    ensures First(LineBreak(), s, i, map[], Hit(i + 4, map[]))
  {
    hide Matches, First, Fails, WordAt;
    var g: Groups := map[];
    var spaces, slash, close := Star(One(c => IsSpace(c)), true), Either(Char('/'), Nothing), Sequence([Char('>')]);
    BreakUnfolds();
    BrFirst(s, i + 1, g);
    CloseFirst(s, i + 3, g);
    SlashOrNot(s, i + 3, g);
    ThenFirst(slash, close, s, i + 3, g, Hit(i + 3, g), Hit(i + 4, g));
    NoSpaces(s, i + 3, g);
    ThenFirst(spaces, Then(slash, close), s, i + 3, g, Hit(i + 3, g), Hit(i + 4, g));
    ThenFirst(Word("br"), Then(spaces, Then(slash, close)), s, i + 1, g, Hit(i + 3, g), Hit(i + 4, g));
    BracketFirst(LineBreak().second, s, i, g, Hit(i + 4, g));
  }

  lemma BrFirst(s: string, i: nat, g: Groups)
    requires i + 2 <= |s| && Lower(s[i]) == 'b' && Lower(s[i + 1]) == 'r'
    ensures First(Word("br"), s, i, g, Hit(i + 2, g))
  {
    WordMatches("br", s, i, g);
    assert WordAt("br", s, i);
  }

  lemma NoSpaces(s: string, i: nat, g: Groups)
    requires i < |s| && s[i] == '>'
    ensures First(Star(One(c => IsSpace(c)), true), s, i, g, Hit(i, g))
  {
    OneMatches(c => IsSpace(c), s, i, g);
    StarStops(c => IsSpace(c), s, i, g);
  }

  lemma BracketFirst(rest: Re, s: string, i: nat, g: Groups, hit: Hit)
    requires i < |s| && s[i] == '<' && First(rest, s, i + 1, g, hit)
    ensures First(Then(Char('<'), rest), s, i, g, hit)
  {
    BracketOnly(rest, s, i, g);
  }

  lemma BreakUnfolds()
    ensures LineBreak().second
            == Then(Word("br"),
                    Then(Star(One(c => IsSpace(c)), true), Then(Either(Char('/'), Nothing), Sequence([Char('>')]))))
  {
  }

  lemma CloseFirst(s: string, i: nat, g: Groups)
    requires i < |s| && s[i] == '>'
    ensures First(Sequence([Char('>')]), s, i, g, Hit(i + 1, g))
  {
    assert [Char('>')][1..] == [];
    assert Sequence([Char('>')]) == Then(Char('>'), Nothing);
    ThenFirst(Char('>'), Nothing, s, i, g, Hit(i + 1, g), Hit(i + 1, g));
  }

  lemma SlashOrNot(s: string, i: nat, g: Groups)
    requires i < |s| && s[i] == '>'
    ensures First(Either(Char('/'), Nothing), s, i, g, Hit(i, g))
  {
    assert Matches(Char('/'), s, i, g) == [];
  }

  // A line break ends the line.
  lemma BreakEndsLine(a: string, b: string)
    requires '<' !in a && '<' !in b
    ensures StripTags(a + "<br>" + b) == a + "\n" + b
  {
    hide Fails, First, ScriptOrStyle, Link, LineBreak, BlockEnd, Tag, ReplaceRe;
    var s := a + "<br>" + b;
    OneBracket(a, "<br>", b);
    FirstPassesLeave(a, "<br>", b);
    BreakMatches(s, |a|);
    forall k | 0 <= k < |a| || |a| + 4 <= k < |s| ensures Fails(LineBreak(), s, k, map[]) {
      BreakNeedsB(s, k);
    }
    ReplaceOnce(LineBreak(), NewLine, s, |a|, Hit(|a| + 4, map[]));
    assert s[..|a|] == a && s[|a| + 4..] == b;
    NoTagsLeft(a + "\n" + b);
  }

  // ---- ends of blocks ----

  const BLOCKS := ["p", "div", "h1", "h2", "h3", "h4", "h5", "h6", "li", "tr"]

  lemma BlockEndIs()
    ensures BlockEnd() == Then(Char('<'), Then(Char('/'), Then(Group(1, OneOf(BLOCKS)), Sequence([Char('>')]))))
  {
    var parts := [Char('/'), Group(1, OneOf(BLOCKS)), Char('>')];
    assert parts[1..] == [Group(1, OneOf(BLOCKS)), Char('>')] && parts[1..][1..] == [Char('>')];
  }

  lemma GroupFirst(n: nat, body: Re, s: string, i: nat, g: Groups, hit: Hit)
    requires i <= |s| && First(body, s, i, g, hit) && i <= hit.end <= |s|
    ensures First(Group(n, body), s, i, g, Hit(hit.end, hit.groups[n := s[i..hit.end]]))
  {
  }

  lemma CharFirst(c: char, s: string, i: nat, g: Groups)
    requires i < |s| && s[i] == c
    ensures First(Char(c), s, i, g, Hit(i + 1, g))
  {
  }

  lemma NoOtherBlock(n: nat, k: nat, s: string, i: nat)
    requires n < |BLOCKS| && k < |BLOCKS| && k != n
    requires i + |BLOCKS[n]| < |s| && s[i..i + |BLOCKS[n]|] == BLOCKS[n] && s[i + |BLOCKS[n]|] == '>'
    ensures !WordAt(BLOCKS[k], s, i)
  {
    assert s[i] == s[i..i + |BLOCKS[n]|][0];
    assert |BLOCKS[n]| > 1 ==> s[i + 1] == s[i..i + |BLOCKS[n]|][1];
    WordStarts(BLOCKS[k], s, i);
    SecondLetter(BLOCKS[k], s, i);
  }

  lemma SecondLetter(w: string, s: string, i: nat)
    requires |w| > 0
    ensures |w| > 1 && WordAt(w, s, i) ==> LetterAt(s, i + 1, Lower(w[1]))
  {
  }

  lemma BlockNameFirst(n: nat, s: string, at: nat, g: Groups)
    requires n < |BLOCKS| && at + |BLOCKS[n]| < |s|
    requires s[at..at + |BLOCKS[n]|] == BLOCKS[n] && s[at + |BLOCKS[n]|] == '>'
    ensures First(OneOf(BLOCKS), s, at, g, Hit(at + |BLOCKS[n]|, g))
  {
    hide First, OneOf;
    var w := BLOCKS[n];
    assert WordAt(w, s, at) by {
      assert forall j :: 0 <= j < |w| ==> s[at + j] == w[j];
    }
    forall k | 0 <= k < n ensures !WordAt(BLOCKS[k], s, at) {
      NoOtherBlock(n, k, s, at);
    }
    FirstOfMatches(BLOCKS, n, s, at, g);
  }

  lemma BlockMatches(n: nat, s: string, i: nat)
    requires n < |BLOCKS| && i + |BLOCKS[n]| + 3 <= |s| && s[i] == '<' && s[i + 1] == '/'
    requires s[i + 2..i + 2 + |BLOCKS[n]|] == BLOCKS[n] && s[i + 2 + |BLOCKS[n]|] == '>'
    ensures First(BlockEnd(), s, i, map[], Hit(i + |BLOCKS[n]| + 3, map[1 := BLOCKS[n]]))
  {
    hide Matches, First, OneOf, BlockEnd;
    var g: Groups := map[];
    var w, at, end := BLOCKS[n], i + 2, i + 2 + |BLOCKS[n]|;
    BlockNameFirst(n, s, at, g);
    GroupFirst(1, OneOf(BLOCKS), s, at, g, Hit(end, g));
    var taken: Groups := g[1 := w];
    CloseFirst(s, end, taken);
    ThenFirst(Group(1, OneOf(BLOCKS)), Sequence([Char('>')]), s, at, g, Hit(end, taken), Hit(end + 1, taken));
    CharFirst('/', s, i + 1, g);
    ThenFirst(Char('/'), Then(Group(1, OneOf(BLOCKS)), Sequence([Char('>')])), s, i + 1, g, Hit(at, g),
              Hit(end + 1, taken));
    BlockEndIs();
    BracketFirst(BlockEnd().second, s, i, g, Hit(end + 1, taken));
  }

  // The end of a paragraph, a heading, a list item or a row ends the line.
  lemma BlockEndsLine(n: nat, a: string, b: string)
    requires n < |BLOCKS| && '<' !in a && '<' !in b
    ensures StripTags(a + ("</" + BLOCKS[n] + ">") + b) == a + "\n" + b
  {
    hide Fails, First, ScriptOrStyle, Link, LineBreak, BlockEnd, Tag, ReplaceRe;
    var tag := "</" + BLOCKS[n] + ">";
    var s := a + tag + b;
    var end := |a| + |BLOCKS[n]| + 3;
    assert tag[1..] == "/" + BLOCKS[n] + ">" && '<' !in BLOCKS[n];
    OneBracket(a, tag, b);
    FirstPassesLeave(a, tag, b);
    forall k | 0 <= k < |s| ensures Fails(LineBreak(), s, k, map[]) {
      BreakNeedsB(s, k);
    }
    ReplaceNone(LineBreak(), NewLine, s);
    assert s[|a| + 2..|a| + 2 + |BLOCKS[n]|] == BLOCKS[n] && s[|a| + 1] == '/' && s[|a| + 2 + |BLOCKS[n]|] == '>';
    BlockMatches(n, s, |a|);
    forall k | 0 <= k < |a| || end <= k < |s| ensures Fails(BlockEnd(), s, k, map[]) {
      BlockNeedsSlash(s, k);
    }
    ReplaceOnce(BlockEnd(), NewLine, s, |a|, Hit(end, map[1 := BLOCKS[n]]));
    assert s[..|a|] == a && s[end..] == b;
    NoTagsLeft(a + "\n" + b);
  }

  // ---- any other tag ----

  // Neither the beginning of a link, a script, a style or a break, nor the end
  // of anything.
  predicate Inert(name: string) {
    name != "" && '<' !in name && '>' !in name && Lower(name[0]) !in {'s', 'a', 'b', '/'}
  }

  lemma OtherTagsSayNothing(name: string, a: string, b: string)
    requires Inert(name) && '<' !in a && '<' !in b
    ensures StripTags(a + ("<" + name + ">") + b) == a + b
  {
    hide Fails, ScriptOrStyle, Link, LineBreak, BlockEnd, Tag, ReplaceRe;
    var tag := "<" + name + ">";
    var s := a + tag + b;
    assert tag[1..] == name + ">" && tag[1] == name[0];
    OneBracket(a, tag, b);
    FirstPassesLeave(a, tag, b);
    forall k | 0 <= k < |s| ensures Fails(LineBreak(), s, k, map[]) && Fails(BlockEnd(), s, k, map[]) {
      BreakNeedsB(s, k);
      BlockNeedsSlash(s, k);
    }
    ReplaceNone(LineBreak(), NewLine, s);
    ReplaceNone(BlockEnd(), NewLine, s);
    OneTagGoes(a, name, b);
  }

  lemma OneTagGoes(a: string, name: string, b: string)
    requires name != "" && '<' !in name && '>' !in name && '<' !in a && '<' !in b
    ensures ReplaceRe(Tag(), Drop, a + ("<" + name + ">") + b) == a + b
  {
    var tag := "<" + name + ">";
    var s := a + tag + b;
    var end := |a| + |tag|;
    assert tag[1..] == name + ">";
    OneBracket(a, tag, b);
    TagEndsAt(a, tag, b);
    TagMatches(s, |a|);
    var hit := Matches(Tag(), s, |a|, map[])[0];
    forall k | 0 <= k < |a| || end <= k < |s| ensures Fails(Tag(), s, k, map[]) {
      TagMatches(s, k);
    }
    assert First(Tag(), s, |a|, map[], hit);
    hide Matches, First, Fails, Tag;
    ReplaceOnce(Tag(), Drop, s, |a|, hit);
    assert s[..|a|] == a && s[end..] == b;
  }

  lemma TagEndsAt(a: string, tag: string, b: string)
    requires |tag| >= 2 && tag[|tag| - 1] == '>' && forall k :: 1 <= k < |tag| - 1 ==> tag[k] != '>'
    ensures var s, end := a + tag + b, |a| + |tag|;
            s[end - 1] == '>' && RunEnd(s, |a| + 1) == end - 1
  {
    var s, end := a + tag + b, |a| + |tag|;
    forall k | |a| + 1 <= k < end ensures s[k] == tag[k - |a|] {
    }
    RunEndIs(s, |a| + 1, end - 1);
  }

  lemma RunEndIs(s: string, i: nat, e: nat)
    requires i <= e < |s| && s[e] == '>' && forall k :: i <= k < e ==> s[k] != '>'
    ensures RunEnd(s, i) == e
  {
  }

  // ---- runs of characters, and what follows them ----

  lemma {:induction false} ContinueAnywhere(second: Re, s: string, i: nat, j: nat, hits: seq<Hit>, a: Re, b: Re)
    requires i <= |s| && j <= |s| && Forward(hits, i, |s|) && Forward(hits, j, |s|) && second < a && second < b
    ensures Continue(second, s, i, hits, a) == Continue(second, s, j, hits, b)
    decreases |hits|
  {
    if hits != [] {
      assert Forward(hits[1..], i, |s|) && Forward(hits[1..], j, |s|);
      ContinueAnywhere(second, s, i, j, hits[1..], a, b);
    }
  }

  lemma RunIs(accepts: char -> bool, s: string, i: nat, g: Groups)
    requires i <= |s|
    ensures var star := Star(One(accepts), true);
            Matches(star, s, i, g)
            == (if i < |s| && accepts(s[i]) then Matches(star, s, i + 1, g) else []) + [Hit(i, g)]
    ensures var star := Star(One(accepts), false);
            Matches(star, s, i, g)
            == [Hit(i, g)] + if i < |s| && accepts(s[i]) then Matches(star, s, i + 1, g) else []
  {
    var one := Matches(One(accepts), s, i, g);
    if i < |s| && accepts(s[i]) {
      assert one == [Hit(i + 1, g)] && one[1..] == [];
      RoundOf(Star(One(accepts), true), s, i, g);
      RoundOf(Star(One(accepts), false), s, i, g);
    } else {
      assert one == [];
    }
  }

  lemma RoundOf(star: Re, s: string, i: nat, g: Groups)
    requires star.Star? && i < |s|
    ensures Forward([Hit(i + 1, g)], i, |s|)
    ensures Again(star, s, i, [Hit(i + 1, g)]) == Matches(star, s, i + 1, g)
  {
    assert [Hit(i + 1, g)][1..] == [];
  }

  lemma NothingToGoOn(k: Re, s: string, i: nat, whole: Re)
    requires i <= |s| && k < whole
    ensures Continue(k, s, i, [], whole) == []
  {
  }

  // A greedy run, with what follows tried from its far end.
  lemma GreedyThen(accepts: char -> bool, k: Re, s: string, i: nat, g: Groups)
    requires i <= |s|
    ensures var both := Then(Star(One(accepts), true), k);
            Matches(both, s, i, g)
            == (if i < |s| && accepts(s[i]) then Matches(both, s, i + 1, g) else []) + Matches(k, s, i, g)
  {
    var star := Star(One(accepts), true);
    var both := Then(star, k);
    hide Matches, Continue;
    RunIs(accepts, s, i, g);
    ThenIs(star, k, s, i, g);
    var more := if i < |s| && accepts(s[i]) then Matches(star, s, i + 1, g) else [];
    assert Forward(more, i, |s|) && Forward([Hit(i, g)], i, |s|) && Forward(more + [Hit(i, g)], i, |s|);
    NothingToGoOn(k, s, i, both);
    ContinueAcross(k, s, i, more, [Hit(i, g)], both);
    ContinueOne(k, s, i, i, g, both);
    if i < |s| && accepts(s[i]) {
      ThenIs(star, k, s, i + 1, g);
      ContinueAnywhere(k, s, i, i + 1, more, both, both);
    }
  }

  lemma {:induction false} GreedyFails(accepts: char -> bool, k: Re, s: string, i: nat, e: nat, g: Groups)
    requires i <= e <= |s| && (e < |s| ==> !accepts(s[e]))
    requires forall q :: i <= q <= e ==> Fails(k, s, q, g)
    ensures Fails(Then(Star(One(accepts), true), k), s, i, g)
    decreases e - i
  {
    GreedyThen(accepts, k, s, i, g);
    hide Matches;
    assert Fails(k, s, i, g);
    if i < e {
      GreedyFails(accepts, k, s, i + 1, e, g);
    }
  }

  // The last place in the run from where the rest goes on is the one taken.
  lemma {:induction false} GreedyFirst(accepts: char -> bool, k: Re, s: string, i: nat, t: nat, e: nat, g: Groups,
                                       hit: Hit)
    requires i <= t <= e <= |s| && (e < |s| ==> !accepts(s[e])) && forall q :: i <= q < t ==> accepts(s[q])
    requires forall q :: t < q <= e ==> Fails(k, s, q, g)
    requires First(k, s, t, g, hit)
    ensures First(Then(Star(One(accepts), true), k), s, i, g, hit)
    decreases t - i
  {
    GreedyThen(accepts, k, s, i, g);
    hide Matches;
    if i < t {
      GreedyFirst(accepts, k, s, i + 1, t, e, g, hit);
    } else if i < e {
      GreedyFails(accepts, k, s, i + 1, e, g);
    }
  }

  lemma {:induction false} RunFirst(accepts: char -> bool, s: string, i: nat, e: nat, g: Groups)
    requires i <= e <= |s| && (e < |s| ==> !accepts(s[e])) && forall q :: i <= q < e ==> accepts(s[q])
    ensures First(Star(One(accepts), true), s, i, g, Hit(e, g))
    decreases e - i
  {
    RunIs(accepts, s, i, g);
    hide Matches;
    if i < e {
      RunFirst(accepts, s, i + 1, e, g);
    }
  }

  // What follows a lazy run kept in a group, tried from its near end.
  ghost function LazyThen(accepts: char -> bool, k: Re, n: nat, s: string, i: nat, j: nat, g: Groups,
                          whole: Re): seq<Hit>
    requires i <= j <= |s| && k < whole
  {
    var hits := Matches(Star(One(accepts), false), s, j, g);
    assert Forward(hits, i, |s|);
    Continue(k, s, i, Captured(hits, n, s, i), whole)
  }

  lemma LazyThenIs(accepts: char -> bool, k: Re, n: nat, s: string, i: nat, j: nat, g: Groups, whole: Re)
    requires i <= j <= |s| && k < whole
    ensures LazyThen(accepts, k, n, s, i, j, g, whole)
            == Matches(k, s, j, g[n := s[i..j]])
               + if j < |s| && accepts(s[j]) then LazyThen(accepts, k, n, s, i, j + 1, g, whole) else []
  {
    RunIs(accepts, s, j, g);
    hide Matches, Continue, Captured;
    var star := Star(One(accepts), false);
    var more := if j < |s| && accepts(s[j]) then Matches(star, s, j + 1, g) else [];
    assert Forward(more, i, |s|) && Forward([Hit(j, g)] + more, i, |s|);
    CapturedFront(Hit(j, g), more, n, s, i);
    ContinueFront(k, s, i, Captured([Hit(j, g)] + more, n, s, i), whole);
    if more == [] {
      NothingCaptured(k, n, s, i, whole);
    }
  }

  lemma NothingCaptured(k: Re, n: nat, s: string, i: nat, whole: Re)
    requires i <= |s| && k < whole
    ensures Captured([], n, s, i) == [] && Continue(k, s, i, [], whole) == []
  {
  }

  // The first place from where the rest goes on is the one taken.
  lemma {:induction false} LazyGroup(accepts: char -> bool, k: Re, n: nat, s: string, i: nat, j: nat, e: nat, g: Groups,
                                     whole: Re, hit: Hit)
    requires i <= j <= e <= |s| && k < whole && forall q :: j <= q < e ==> accepts(s[q])
    requires forall q :: j <= q < e ==> Fails(k, s, q, g[n := s[i..q]])
    requires First(k, s, e, g[n := s[i..e]], hit)
    ensures LazyThen(accepts, k, n, s, i, j, g, whole) != [] && LazyThen(accepts, k, n, s, i, j, g, whole)[0] == hit
    decreases e - j
  {
    hide Matches, LazyThen;
    LazyThenIs(accepts, k, n, s, i, j, g, whole);
    if j < e {
      assert Fails(k, s, j, g[n := s[i..j]]);
      LazyGroup(accepts, k, n, s, i, j + 1, e, g, whole, hit);
    }
  }

  lemma CapturedFront(hit: Hit, more: seq<Hit>, n: nat, s: string, i: nat)
    requires i <= |s| && Forward([hit] + more, i, |s|)
    ensures Forward(more, i, |s|) && i <= hit.end <= |s|
    ensures var hits := Captured([hit] + more, n, s, i);
            hits != [] && hits[0] == Hit(hit.end, hit.groups[n := s[i..hit.end]])
            && hits[1..] == Captured(more, n, s, i)
  {
    var all := [hit] + more;
    assert all[0] == hit;
    forall k | 0 <= k < |more| ensures i <= more[k].end <= |s| {
      assert all[k + 1] == more[k];
    }
    var hits := Captured(all, n, s, i);
    assert hits[1..] == Captured(more, n, s, i);
  }

  lemma ContinueFront(second: Re, s: string, i: nat, hits: seq<Hit>, whole: Re)
    requires i <= |s| && Forward(hits, i, |s|) && second < whole && hits != []
    ensures Forward(hits[1..], i, |s|)
    ensures Continue(second, s, i, hits, whole)
            == Matches(second, s, hits[0].end, hits[0].groups) + Continue(second, s, i, hits[1..], whole)
  {
  }

  lemma GroupThenIs(n: nat, body: Re, k: Re, s: string, i: nat, g: Groups)
    requires i <= |s|
    ensures Matches(Then(Group(n, body), k), s, i, g)
            == Continue(k, s, i, Captured(Matches(body, s, i, g), n, s, i), Then(Group(n, body), k))
  {
  }

  // ---- scripts and styles ----

  const SILENT := ["script", "style"]

  // The tags in any mixture of cases.
  function Silent(name: string, inside: string, again: string): string {
    "<" + name + (inside + ("</" + again + ">"))
  }

  predicate EndTagAt(name: string, s: string, q: nat) {
    && q + |name| + 3 <= |s| && s[q] == '<' && s[q + 1] == '/'
    && SameIgnoringCase(s[q + 2..q + 2 + |name|], name) && s[q + 2 + |name|] == '>'
  }

  // The end tag is the first there is.
  predicate SilentParts(n: nat, name: string, inside: string, again: string)
    requires n < |SILENT|
  {
    && SameIgnoringCase(name, SILENT[n]) && SameIgnoringCase(again, name)
    && forall q :: 0 <= q < |inside| ==> !EndTagAt(name, inside + ("</" + again + ">"), q)
  }

  // A lazy run, with what follows tried from its near end.
  lemma LazyIs(accepts: char -> bool, k: Re, s: string, i: nat, g: Groups)
    requires i <= |s|
    ensures var both := Then(Star(One(accepts), false), k);
            Matches(both, s, i, g)
            == Matches(k, s, i, g) + (if i < |s| && accepts(s[i]) then Matches(both, s, i + 1, g) else [])
  {
    var star := Star(One(accepts), false);
    var both := Then(star, k);
    hide Matches, Continue;
    RunIs(accepts, s, i, g);
    ThenIs(star, k, s, i, g);
    var more := if i < |s| && accepts(s[i]) then Matches(star, s, i + 1, g) else [];
    assert Forward(more, i, |s|) && Forward([Hit(i, g)], i, |s|) && Forward([Hit(i, g)] + more, i, |s|);
    NothingToGoOn(k, s, i, both);
    ContinueAcross(k, s, i, [Hit(i, g)], more, both);
    ContinueOne(k, s, i, i, g, both);
    if i < |s| && accepts(s[i]) {
      ThenIs(star, k, s, i + 1, g);
      ContinueAnywhere(k, s, i, i + 1, more, both, both);
    }
  }

  lemma LazyGoesOn(accepts: char -> bool, k: Re, s: string, i: nat, g: Groups, hit: Hit)
    requires i < |s| && accepts(s[i]) && Fails(k, s, i, g)
    requires First(Then(Star(One(accepts), false), k), s, i + 1, g, hit)
    ensures First(Then(Star(One(accepts), false), k), s, i, g, hit)
  {
    hide Matches;
    LazyIs(accepts, k, s, i, g);
  }

  lemma LazyEnds(accepts: char -> bool, k: Re, s: string, i: nat, g: Groups, hit: Hit)
    requires i <= |s| && First(k, s, i, g, hit)
    ensures First(Then(Star(One(accepts), false), k), s, i, g, hit)
  {
    hide Matches;
    LazyIs(accepts, k, s, i, g);
  }

  lemma {:induction false} LazyFirst(accepts: char -> bool, k: Re, s: string, i: nat, e: nat, g: Groups, hit: Hit)
    requires i <= e <= |s| && forall q :: i <= q < e ==> accepts(s[q])
    requires forall q :: i <= q < e ==> Fails(k, s, q, g)
    requires First(k, s, e, g, hit)
    ensures First(Then(Star(One(accepts), false), k), s, i, g, hit)
    decreases e - i
  {
    hide Matches, First, Fails;
    if i < e {
      assert Fails(k, s, i, g);
      LazyFirst(accepts, k, s, i + 1, e, g, hit);
      LazyGoesOn(accepts, k, s, i, g, hit);
    } else {
      LazyEnds(accepts, k, s, i, g, hit);
    }
  }

  // The pattern from the end tag on.
  function FromEndTag(): Re {
    Then(Char('<'), Then(Char('/'), Then(Back(1), Sequence([Char('>')]))))
  }

  lemma ScriptOrStyleIs()
    ensures ScriptOrStyle()
            == Then(Char('<'), Then(Group(1, OneOf(SILENT)), Then(Star(Any(), false), FromEndTag())))
  {
    var parts := [Group(1, OneOf(SILENT)), Star(Any(), false), Char('<'), Char('/'), Back(1), Char('>')];
    assert parts[1..] == [Star(Any(), false), Char('<'), Char('/'), Back(1), Char('>')];
    assert parts[1..][1..] == [Char('<'), Char('/'), Back(1), Char('>')];
    assert parts[1..][1..][1..] == [Char('/'), Back(1), Char('>')];
    assert parts[1..][1..][1..][1..] == [Back(1), Char('>')];
    assert parts[1..][1..][1..][1..][1..] == [Char('>')];
  }

  lemma EndTagFails(s: string, q: nat, g: Groups)
    requires q < |s| && 1 in g && !EndTagAt(g[1], s, q)
    ensures Fails(FromEndTag(), s, q, g)
  {
    var slash := FromEndTag().second;
    BracketOnly(slash, s, q, g);
    if s[q] == '<' {
      if q + 1 < |s| && s[q + 1] == '/' {
        BackOrNot(s, q + 2, g);
        assert Matches(Char('/'), s, q + 1, g) == [Hit(q + 2, g)];
        hide Matches;
        ThenFails(Char('/'), slash.second, s, q + 1, g);
      } else {
        CharFails('/', slash.second, s, q + 1, g);
      }
    }
  }

  lemma BackOrNot(s: string, i: nat, g: Groups)
    requires 1 in g && i <= |s|
    requires !(i + |g[1]| < |s| && SameIgnoringCase(s[i..i + |g[1]|], g[1]) && s[i + |g[1]|] == '>')
    ensures Fails(Then(Back(1), Sequence([Char('>')])), s, i, g)
  {
    var close := Sequence([Char('>')]);
    BackIs(s, i, g);
    hide Matches, SameIgnoringCase;
    if i + |g[1]| <= |s| && SameIgnoringCase(s[i..i + |g[1]|], g[1]) {
      CloseIs();
      CharFails('>', Nothing, s, i + |g[1]|, g);
    }
    ThenFails(Back(1), close, s, i, g);
  }

  lemma CloseIs()
    ensures Sequence([Char('>')]) == Then(Char('>'), Nothing)
  {
    assert [Char('>')][1..] == [];
  }

  lemma BackIs(s: string, i: nat, g: Groups)
    requires 1 in g && i <= |s|
    ensures Matches(Back(1), s, i, g)
            == if i + |g[1]| <= |s| && SameIgnoringCase(s[i..i + |g[1]|], g[1]) then [Hit(i + |g[1]|, g)] else []
  {
  }

  lemma EndTagFirst(s: string, e: nat, g: Groups)
    requires 1 in g && EndTagAt(g[1], s, e)
    ensures First(FromEndTag(), s, e, g, Hit(e + |g[1]| + 3, g))
  {
    var name, hit := e + 2 + |g[1]|, Hit(e + |g[1]| + 3, g);
    BackIs(s, e + 2, g);
    assert First(Back(1), s, e + 2, g, Hit(name, g));
    hide Matches, First;
    CloseFirst(s, name, g);
    ThenFirst(Back(1), Sequence([Char('>')]), s, e + 2, g, Hit(name, g), hit);
    CharFirst('/', s, e + 1, g);
    ThenFirst(Char('/'), Then(Back(1), Sequence([Char('>')])), s, e + 1, g, Hit(e + 2, g), hit);
    BracketFirst(FromEndTag().second, s, e, g, hit);
  }

  lemma SilentNameFirst(n: nat, name: string, s: string, i: nat, g: Groups)
    requires n < |SILENT| && SameIgnoringCase(name, SILENT[n])
    requires i + |name| <= |s| && s[i..i + |name|] == name
    ensures First(Group(1, OneOf(SILENT)), s, i, g, Hit(i + |name|, g[1 := name]))
  {
    hide First, OneOf, Matches;
    var w := SILENT[n];
    assert WordAt(w, s, i) by {
      assert forall j :: 0 <= j < |w| ==> s[i + j] == name[j];
    }
    SecondLetter("script", s, i);
    assert Lower(s[i + 1]) == Lower(w[1]);
    FirstOfMatches(SILENT, n, s, i, g);
    GroupFirst(1, OneOf(SILENT), s, i, g, Hit(i + |w|, g));
  }

  // The whole of it, its parts told by their positions: what is inside from
  // `m` on, the end tag at `e`.
  lemma SilentFirst(n: nat, name: string, s: string, i: nat, m: nat, e: nat)
    requires n < |SILENT| && SameIgnoringCase(name, SILENT[n])
    requires m == i + 1 + |name| <= e && e < |s| && s[i] == '<' && s[i + 1..m] == name
    requires EndTagAt(name, s, e) && forall q :: m <= q < e ==> !EndTagAt(name, s, q)
    ensures First(ScriptOrStyle(), s, i, map[], Hit(e + |name| + 3, map[1 := name]))
  {
    hide Matches, First, Fails, OneOf, ScriptOrStyle, FromEndTag, EndTagAt;
    var g: Groups := map[1 := name];
    var hit := Hit(e + |name| + 3, g);
    EndTagFirst(s, e, g);
    forall q | m <= q < e ensures Fails(FromEndTag(), s, q, g) {
      EndTagFails(s, q, g);
    }
    LazyFirst(Any().accepts, FromEndTag(), s, m, e, g, hit);
    SilentNameFirst(n, name, s, i + 1, map[]);
    assert hit.end <= |s| by { EndTagWithin(name, s, e); }
    ThenFirst(Group(1, OneOf(SILENT)), Then(Star(Any(), false), FromEndTag()), s, i + 1, map[], Hit(m, g), hit);
    ScriptOrStyleIs();
    BracketFirst(ScriptOrStyle().second, s, i, map[], hit);
  }

  lemma EndTagWithin(name: string, s: string, e: nat)
    requires EndTagAt(name, s, e)
    ensures e + |name| + 3 <= |s|
  {
  }

  lemma SilentGoes(n: nat, a: string, name: string, inside: string, again: string, b: string)
    requires n < |SILENT| && SilentParts(n, name, inside, again) && '<' !in a && '<' !in b
    ensures ReplaceRe(ScriptOrStyle(), Drop, a + Silent(name, inside, again) + b) == a + b
  {
    hide Fails, First, ScriptOrStyle, ReplaceRe, Silent, EndTagAt;
    var s := a + Silent(name, inside, again) + b;
    var m := |a| + 1 + |name|;
    var e := m + |inside|;
    SilentPositions(n, a, name, inside, again, b);
    SilentFirst(n, name, s, |a|, m, e);
    assert e + |name| + 3 <= |s|;
    SilentDrops(s, a, b, Hit(e + |name| + 3, map[1 := name]));
  }

  lemma SilentDrops(s: string, a: string, b: string, hit: Hit)
    requires |a| < hit.end <= |s| && s[..|a|] == a && s[hit.end..] == b && '<' !in a && '<' !in b
    requires First(ScriptOrStyle(), s, |a|, map[], hit)
    ensures ReplaceRe(ScriptOrStyle(), Drop, s) == a + b
  {
    hide Fails, First, ScriptOrStyle, ReplaceRe;
    forall k | 0 <= k < |a| || hit.end <= k < |s| ensures Fails(ScriptOrStyle(), s, k, map[]) {
      assert s[k] == if k < |a| then s[..|a|][k] else s[hit.end..][k - hit.end];
      ScriptNeedsS(s, k);
    }
    ReplaceOnce(ScriptOrStyle(), Drop, s, |a|, hit);
    assert a + "" + b == a + b;
  }

  // Scripts and styles say nothing, whatever they hold.
  lemma ScriptsSayNothing(n: nat, a: string, name: string, inside: string, again: string, b: string)
    requires n < |SILENT| && SilentParts(n, name, inside, again) && '<' !in a && '<' !in b
    ensures StripTags(a + Silent(name, inside, again) + b) == a + b
  {
    hide Fails, First, ScriptOrStyle, Link, LineBreak, BlockEnd, Tag, ReplaceRe, Silent, SilentParts;
    SilentGoes(n, a, name, inside, again, b);
    forall k | 0 <= k < |a + b| ensures Fails(Link(), a + b, k, map[]) {
      LinkNeedsA(a + b, k);
    }
    ReplaceNone(Link(), LinkText, a + b);
    NoTagsLeft(a + b);
  }

  lemma SilentPositions(n: nat, a: string, name: string, inside: string, again: string, b: string)
    requires n < |SILENT| && SilentParts(n, name, inside, again)
    ensures var s := a + Silent(name, inside, again) + b;
            var m, e := |a| + 1 + |name|, |a| + 1 + |name| + |inside|;
            && |s| == e + |name| + 3 + |b| && s[..|a|] == a && s[e + |name| + 3..] == b
            && s[|a|] == '<' && s[|a| + 1..m] == name && EndTagAt(name, s, e)
            && forall q :: m <= q < e ==> !EndTagAt(name, s, q)
  {
    var s := a + Silent(name, inside, again) + b;
    var m, e := |a| + 1 + |name|, |a| + 1 + |name| + |inside|;
    var rest := inside + ("</" + again + ">");
    hide EndTagAt;
    SilentIsAt(a, name, rest, b);
    assert a + ("<" + name + rest) + b == s;
    EndTagLast(name, inside, again);
    SameEndTag(name, s, m, rest, |inside|);
    forall q | m <= q < e ensures !EndTagAt(name, s, q) {
      SameEndTag(name, s, m, rest, q - m);
    }
  }

  lemma SilentIsAt(a: string, name: string, rest: string, b: string)
    ensures var s, m := a + ("<" + name + rest) + b, |a| + 1 + |name|;
            && |s| == m + |rest| + |b| && s[..|a|] == a && s[m + |rest|..] == b
            && s[|a|] == '<' && s[|a| + 1..m] == name && s[m..m + |rest|] == rest
  {
  }

  lemma EndTagLast(name: string, inside: string, again: string)
    requires SameIgnoringCase(again, name)
    ensures EndTagAt(name, inside + ("</" + again + ">"), |inside|)
  {
    var rest := inside + ("</" + again + ">");
    assert rest[|inside| + 2..|inside| + 2 + |name|] == again;
  }

  lemma SameEndTag(name: string, s: string, m: nat, rest: string, q: nat)
    requires m + |rest| <= |s| && s[m..m + |rest|] == rest && q + |name| + 3 <= |rest|
    ensures EndTagAt(name, s, m + q) <==> EndTagAt(name, rest, q)
  {
    assert rest[q] == s[m + q] && rest[q + 1] == s[m + q + 1] && rest[q + 2 + |name|] == s[m + q + 2 + |name|];
    var here, there := rest[q + 2..q + 2 + |name|], s[m + q + 2..m + q + 2 + |name|];
    forall j | 0 <= j < |name| ensures here[j] == there[j] {
      assert rest[q + 2 + j] == s[m + (q + 2 + j)];
    }
    assert here == there;
  }

  // ---- links ----

  // Text that is no markup and ends no attribute.
  predicate Plain(s: string) {
    '<' !in s && '>' !in s && '"' !in s
  }

  function LinkTo(href: string, says: string): string {
    "<a href=\"" + href + "\">" + says + "</a>"
  }

  // The address, after the label where the label says something else.
  function LinkSays(href: string, says: string): string {
    if says == "" || says == href then href else says + " (" + href + ")"
  }

  // The pattern from where the attribute is looked for, from inside its
  // quotes, and from the label on.
  function FromLabel(): Re {
    Sequence([Char('<'), Char('/'), AnyCase('a'), Char('>')])
  }

  function FromQuote(): Re {
    Sequence([Char('"'), Star(NotChar('>'), true), Char('>'), Group(2, Star(Any(), false)),
              Char('<'), Char('/'), AnyCase('a'), Char('>')])
  }

  function InQuotes(): Re {
    Then(Group(1, Star(NotChar('"'), true)), FromQuote())
  }

  function Attribute(): Re {
    Then(Word("href"), Then(Char('='), Then(Char('"'), InQuotes())))
  }

  lemma {:induction false} SequenceIs(first: Re, rest: seq<Re>)
    ensures Sequence([first] + rest) == Then(first, Sequence(rest))
  {
    assert ([first] + rest)[1..] == rest;
  }

  lemma FromQuoteIs()
    ensures FromQuote() == Then(Char('"'), Then(Star(NotChar('>'), true), Then(Char('>'),
                             Then(Group(2, Star(Any(), false)), FromLabel()))))
  {
    var end := [Char('<'), Char('/'), AnyCase('a'), Char('>')];
    var group, close, star := Group(2, Star(Any(), false)), Char('>'), Star(NotChar('>'), true);
    SequenceIs(group, end);
    SequenceIs(close, [group] + end);
    SequenceIs(star, [close] + ([group] + end));
    SequenceIs(Char('"'), [star] + ([close] + ([group] + end)));
    assert [Char('"'), star, close, group, Char('<'), Char('/'), AnyCase('a'), Char('>')]
           == [Char('"')] + ([star] + ([close] + ([group] + end)));
  }

  lemma LinkIs()
    ensures Link()
              == Then(Char('<'), Then(AnyCase('a'), Then(WordBoundary, Then(Star(NotChar('>'), true), Attribute()))))
  {
    hide Sequence, Word;
    var last := [Char('"'), Star(NotChar('>'), true), Char('>'), Group(2, Star(Any(), false)),
                 Char('<'), Char('/'), AnyCase('a'), Char('>')];
    var inside := [Group(1, Star(NotChar('"'), true))] + last;
    SequenceIs(Group(1, Star(NotChar('"'), true)), last);
    SequenceIs(Char('"'), inside);
    SequenceIs(Char('='), [Char('"')] + inside);
    SequenceIs(Word("href"), [Char('=')] + ([Char('"')] + inside));
    var attribute := [Word("href")] + ([Char('=')] + ([Char('"')] + inside));
    SequenceIs(Star(NotChar('>'), true), attribute);
    SequenceIs(WordBoundary, [Star(NotChar('>'), true)] + attribute);
    SequenceIs(AnyCase('a'), [WordBoundary] + ([Star(NotChar('>'), true)] + attribute));
    assert [AnyCase('a'), WordBoundary, Star(NotChar('>'), true), Word("href"), Char('='), Char('"'),
            Group(1, Star(NotChar('"'), true)), Char('"'), Star(NotChar('>'), true), Char('>'),
            Group(2, Star(Any(), false)), Char('<'), Char('/'), AnyCase('a'), Char('>')]
           == [AnyCase('a')] + ([WordBoundary] + ([Star(NotChar('>'), true)] + attribute));
  }

  lemma CharFails(c: char, rest: Re, s: string, i: nat, g: Groups)
    requires i <= |s| && (i < |s| ==> s[i] != c)
    ensures Fails(Then(Char(c), rest), s, i, g)
  {
    ThenIs(Char(c), rest, s, i, g);
  }

  lemma LetterFirst(c: char, s: string, i: nat, g: Groups)
    requires LetterAt(s, i, Lower(c))
    ensures First(AnyCase(c), s, i, g, Hit(i + 1, g))
  {
    LetterMatches(c, s, i, g);
  }

  lemma FromLabelFirst(s: string, c: nat, g: Groups)
    requires c + 4 <= |s| && s[c..c + 4] == "</a>"
    ensures First(FromLabel(), s, c, g, Hit(c + 4, g))
  {
    hide Matches, First;
    var cut := s[c..c + 4];
    assert cut[0] == '<' && cut[1] == '/' && cut[2] == 'a' && cut[3] == '>';
    assert s[c] == '<' && s[c + 1] == '/' && s[c + 2] == 'a' && s[c + 3] == '>';
    CloseFirst(s, c + 3, g);
    LetterFirst('a', s, c + 2, g);
    ThenFirst(AnyCase('a'), Sequence([Char('>')]), s, c + 2, g, Hit(c + 3, g), Hit(c + 4, g));
    CharFirst('/', s, c + 1, g);
    ThenFirst(Char('/'), Then(AnyCase('a'), Sequence([Char('>')])), s, c + 1, g, Hit(c + 2, g), Hit(c + 4, g));
    CharFirst('<', s, c, g);
    ThenFirst(Char('<'), Then(Char('/'), Then(AnyCase('a'), Sequence([Char('>')]))), s, c, g, Hit(c + 1, g),
              Hit(c + 4, g));
    FromLabelIs();
  }

  lemma FromLabelIs()
    ensures FromLabel() == Then(Char('<'), Then(Char('/'), Then(AnyCase('a'), Sequence([Char('>')]))))
  {
    SequenceIs(AnyCase('a'), [Char('>')]);
    SequenceIs(Char('/'), [AnyCase('a'), Char('>')]);
    SequenceIs(Char('<'), [Char('/'), AnyCase('a'), Char('>')]);
    assert [Char('<'), Char('/'), AnyCase('a'), Char('>')] == [Char('<')] + [Char('/'), AnyCase('a'), Char('>')];
    assert [Char('/'), AnyCase('a'), Char('>')] == [Char('/')] + [AnyCase('a'), Char('>')];
    assert [AnyCase('a'), Char('>')] == [AnyCase('a')] + [Char('>')];
  }

  // The label: everything up to the closing tag.
  lemma LabelFirst(s: string, l: nat, c: nat, g: Groups)
    requires l <= c && c + 4 <= |s| && s[c..c + 4] == "</a>" && forall q :: l <= q < c ==> s[q] != '<'
    ensures First(Then(Group(2, Star(Any(), false)), FromLabel()), s, l, g, Hit(c + 4, g[2 := s[l..c]]))
  {
    var whole := Then(Group(2, Star(Any(), false)), FromLabel());
    forall q | l <= q < c ensures Fails(FromLabel(), s, q, g[2 := s[l..q]]) {
      FromLabelIs();
      CharFails('<', Then(Char('/'), Then(AnyCase('a'), Sequence([Char('>')]))), s, q, g[2 := s[l..q]]);
    }
    FromLabelFirst(s, c, g[2 := s[l..c]]);
    LazyGroup(Any().accepts, FromLabel(), 2, s, l, l, c, g, whole, Hit(c + 4, g[2 := s[l..c]]));
    GroupThenIs(2, Star(Any(), false), FromLabel(), s, l, g);
  }

  lemma FromQuoteFirst(s: string, h: nat, c: nat, g: Groups)
    requires h + 2 <= c && c + 4 <= |s| && s[h] == '"' && s[h + 1] == '>' && s[c..c + 4] == "</a>"
    requires forall q :: h + 2 <= q < c ==> s[q] != '<'
    ensures First(FromQuote(), s, h, g, Hit(c + 4, g[2 := s[h + 2..c]]))
  {
    hide Matches, First, Fails, FromQuote, FromLabel;
    var hit := Hit(c + 4, g[2 := s[h + 2..c]]);
    var group := Group(2, Star(Any(), false));
    LabelFirst(s, h + 2, c, g);
    CharFirst('>', s, h + 1, g);
    ThenFirst(Char('>'), Then(group, FromLabel()), s, h + 1, g, Hit(h + 2, g), hit);
    RunFirst(NotChar('>').accepts, s, h + 1, h + 1, g);
    ThenFirst(Star(NotChar('>'), true), Then(Char('>'), Then(group, FromLabel())), s, h + 1, g, Hit(h + 1, g), hit);
    CharFirst('"', s, h, g);
    ThenFirst(Char('"'), Then(Star(NotChar('>'), true), Then(Char('>'), Then(group, FromLabel()))), s, h, g,
              Hit(h + 1, g), hit);
    FromQuoteIs();
  }

  // A link written as `LinkTo` writes it, its parts told by their positions:
  // the address from i + 9 to h, the label from h + 2 to c.
  ghost predicate LinkAt(s: string, i: nat, h: nat, c: nat) {
    && i + 9 <= h && h + 2 <= c && c + 4 <= |s| && s[i..i + 9] == "<a href=\"" && s[c..c + 4] == "</a>"
    && s[h] == '"' && s[h + 1] == '>'
    && (forall q :: i + 9 <= q < |s| && q != h ==> s[q] != '"')
    && (forall q :: i < q <= h ==> s[q] != '>')
    && (forall q :: h + 2 <= q < c ==> s[q] != '<')
  }

  lemma AttributeFirst(s: string, i: nat, h: nat, c: nat)
    requires LinkAt(s, i, h, c)
    ensures First(Attribute(), s, i + 3, map[], Hit(c + 4, map[1 := s[i + 9..h], 2 := s[h + 2..c]]))
  {
    hide Matches, First, Fails, FromQuote, WordAt, Word;
    var none: Groups := map[];
    var g: Groups := map[1 := s[i + 9..h]];
    var hit := Hit(c + 4, g[2 := s[h + 2..c]]);
    FromQuoteFirst(s, h, c, g);
    RunFirst(NotChar('"').accepts, s, i + 9, h, none);
    GroupFirst(1, Star(NotChar('"'), true), s, i + 9, none, Hit(h, none));
    assert none[1 := s[i + 9..h]] == g;
    ThenFirst(Group(1, Star(NotChar('"'), true)), FromQuote(), s, i + 9, none, Hit(h, g), hit);
    var cut := s[i..i + 9];
    assert s[i + 8] == cut[8] == '"' && s[i + 7] == cut[7] == '=';
    CharFirst('"', s, i + 8, none);
    ThenFirst(Char('"'), InQuotes(), s, i + 8, none, Hit(i + 9, none), hit);
    CharFirst('=', s, i + 7, none);
    ThenFirst(Char('='), Then(Char('"'), InQuotes()), s, i + 7, none, Hit(i + 8, none), hit);
    HrefFirst(s, i);
    ThenFirst(Word("href"), Then(Char('='), Then(Char('"'), InQuotes())), s, i + 3, none, Hit(i + 7, none), hit);
    assert g[2 := s[h + 2..c]] == map[1 := s[i + 9..h], 2 := s[h + 2..c]];
  }

  lemma HrefFirst(s: string, i: nat)
    requires i + 9 <= |s| && s[i..i + 9] == "<a href=\""
    ensures First(Word("href"), s, i + 3, map[], Hit(i + 7, map[]))
  {
    var cut := s[i..i + 9];
    assert s[i + 3] == cut[3] && s[i + 4] == cut[4] && s[i + 5] == cut[5] && s[i + 6] == cut[6];
    WordMatches("href", s, i + 3, map[]);
    assert WordAt("href", s, i + 3);
  }

  lemma InQuotesFails(s: string, i: nat, g: Groups)
    requires i <= |s| && forall r :: i <= r < |s| ==> s[r] != '"'
    ensures Fails(InQuotes(), s, i, g)
  {
    var group := Group(1, Star(NotChar('"'), true));
    var hits := Matches(group, s, i, g);
    FromQuoteIs();
    hide Matches, FromQuote;
    assert Forward(hits, i, |s|);
    forall k | 0 <= k < |hits| ensures hits[k].end <= |s| && Fails(FromQuote(), s, hits[k].end, hits[k].groups) {
      CharFails('"', FromQuote().second, s, hits[k].end, hits[k].groups);
    }
    ThenFails(group, FromQuote(), s, i, g);
  }

  // The attribute is nowhere but before a quote with another after it.
  lemma AttributeFails(s: string, q: nat, g: Groups)
    requires q <= |s|
    requires q + 5 < |s| && s[q + 5] == '"' ==> forall r :: q + 6 <= r < |s| ==> s[r] != '"'
    ensures Fails(Attribute(), s, q, g)
  {
    hide InQuotes, Word;
    var quoted := Then(Char('"'), InQuotes());
    WordMatches("href", s, q, g);
    if WordAt("href", s, q) {
      assert Fails(Then(Char('='), quoted), s, q + 4, g) by {
        if q + 4 < |s| && s[q + 4] == '=' {
          assert Fails(quoted, s, q + 5, g) by { QuotedFails(s, q + 5, g); }
          OneCharFails('=', quoted, s, q + 4, g);
        } else {
          CharFails('=', quoted, s, q + 4, g);
        }
      }
    }
    ThenFails(Word("href"), Then(Char('='), quoted), s, q, g);
  }

  lemma QuotedFails(s: string, i: nat, g: Groups)
    requires i <= |s| && (i < |s| && s[i] == '"' ==> forall r :: i + 1 <= r < |s| ==> s[r] != '"')
    ensures Fails(Then(Char('"'), InQuotes()), s, i, g)
  {
    hide InQuotes;
    if i < |s| && s[i] == '"' {
      InQuotesFails(s, i + 1, g);
      OneCharFails('"', InQuotes(), s, i, g);
    } else {
      CharFails('"', InQuotes(), s, i, g);
    }
  }

  lemma OneCharFails(c: char, rest: Re, s: string, i: nat, g: Groups)
    requires i < |s| && s[i] == c && Fails(rest, s, i + 1, g)
    ensures Fails(Then(Char(c), rest), s, i, g)
  {
    assert Matches(Char(c), s, i, g) == [Hit(i + 1, g)];
    ThenFails(Char(c), rest, s, i, g);
  }

  lemma LinkFirst(s: string, i: nat, h: nat, c: nat)
    requires LinkAt(s, i, h, c)
    ensures First(Link(), s, i, map[], Hit(c + 4, map[1 := s[i + 9..h], 2 := s[h + 2..c]]))
  {
    hide Matches, First, Fails, Attribute, Link;
    var g: Groups := map[];
    var hit := Hit(c + 4, map[1 := s[i + 9..h], 2 := s[h + 2..c]]);
    var star := Star(NotChar('>'), true);
    var cut := s[i..i + 9];
    assert s[i] == cut[0] && s[i + 1] == cut[1] && s[i + 2] == cut[2];
    AttributeFirst(s, i, h, c);
    forall q | i + 3 < q <= h + 1 ensures Fails(Attribute(), s, q, g) {
      AttributeFails(s, q, g);
    }
    GreedyFirst(NotChar('>').accepts, Attribute(), s, i + 2, i + 3, h + 1, g, hit);
    BoundaryFirst(s, i + 2, g);
    ThenFirst(WordBoundary, Then(star, Attribute()), s, i + 2, g, Hit(i + 2, g), hit);
    LetterFirst('a', s, i + 1, g);
    ThenFirst(AnyCase('a'), Then(WordBoundary, Then(star, Attribute())), s, i + 1, g, Hit(i + 2, g), hit);
    BracketFirst(Then(AnyCase('a'), Then(WordBoundary, Then(star, Attribute()))), s, i, g, hit);
    LinkIs();
  }

  lemma BoundaryFirst(s: string, i: nat, g: Groups)
    requires 0 < i < |s| && s[i - 1] == 'a' && s[i] == ' '
    ensures First(WordBoundary, s, i, g, Hit(i, g))
  {
  }

  // A piece of a text, at its place.
  ghost predicate Piece(s: string, at: nat, piece: string) {
    at + |piece| <= |s| && s[at..at + |piece|] == piece
  }

  lemma PieceAt(s: string, at: nat, piece: string, k: nat)
    requires Piece(s, at, piece) && k < |piece|
    ensures s[at + k] == piece[k]
  {
  }

  lemma PieceLacks(s: string, at: nat, piece: string, c: char)
    requires Piece(s, at, piece) && c !in piece
    ensures forall q :: at <= q < at + |piece| ==> s[q] != c
  {
    forall q | at <= q < at + |piece| ensures s[q] != c {
      assert s[q] == s[at..at + |piece|][q - at];
    }
  }

  // The pieces of a text with one link in it.
  lemma LinkPieces(a: string, href: string, says: string, b: string)
    ensures var s := a + LinkTo(href, says) + b;
            var h := |a| + 9 + |href|;
            var c := h + 2 + |says|;
            && |s| == c + 4 + |b| && Piece(s, 0, a) && Piece(s, |a|, "<a href=\"") && Piece(s, |a| + 9, href)
            && Piece(s, h, "\">") && Piece(s, h + 2, says) && Piece(s, c, "</a>") && Piece(s, c + 4, b)
  {
    hide Piece;
    var o, m, t := "<a href=\"", "\">", "</a>";
    var s1 := a + o;
    var s2 := s1 + href;
    var s3 := s2 + m;
    var s4 := s3 + says;
    var s5 := s4 + t;
    PieceAll(a);
    Grown(a, o);
    Grown(s1, href);
    Grown(s2, m);
    Grown(s3, says);
    Grown(s4, t);
    Grown(s5, b);
    Reassociated(a, o, href, m, says, t);
  }

  lemma PieceAll(s: string)
    ensures Piece(s, 0, s)
  {
  }

  lemma Grown(s: string, more: string)
    ensures Piece(s + more, |s|, more)
    ensures forall at: nat, piece: string :: Piece(s, at, piece) ==> Piece(s + more, at, piece)
  {
    forall at: nat, piece: string | Piece(s, at, piece) ensures Piece(s + more, at, piece) {
      assert (s + more)[at..at + |piece|] == s[at..at + |piece|];
    }
  }

  lemma Reassociated(a: string, o: string, href: string, m: string, says: string, t: string)
    ensures a + (o + href + m + says + t) == a + o + href + m + says + t
  {
    Associates(a, o + href + m + says, t);
    Associates(a, o + href + m, says);
    Associates(a, o + href, m);
    Associates(a, o, href);
  }

  lemma Associates(a: string, b: string, c: string)
    ensures a + (b + c) == a + b + c
  {
  }

  // Where everything in it is.
  lemma LinkPositions(a: string, href: string, says: string, b: string)
    requires '<' !in a && Plain(href) && Plain(says) && Plain(b)
    ensures var s := a + LinkTo(href, says) + b;
            var h := |a| + 9 + |href|;
            var c := h + 2 + |says|;
            && LinkAt(s, |a|, h, c) && |s| == c + 4 + |b|
            && s[|a| + 9..h] == href && s[h + 2..c] == says && s[..|a|] == a && s[c + 4..] == b
            && (forall k :: 0 <= k < |s| ==> (s[k] == '<' <==> k == |a| || k == c))
            && s[|a| + 1] == 'a' && s[c + 1] == '/'
  {
    var s := a + LinkTo(href, says) + b;
    var h := |a| + 9 + |href|;
    var c := h + 2 + |says|;
    LinkPieces(a, href, says, b);
    LinkBrackets(s, a, href, says, b);
    LinkQuotes(s, a, href, says, b);
    assert s[0..|a|] == s[..|a|] && s[c + 4..|s|] == s[c + 4..];
  }

  lemma LinkBrackets(s: string, a: string, href: string, says: string, b: string)
    requires '<' !in a && Plain(href) && Plain(says) && Plain(b)
    requires var h := |a| + 9 + |href|;
             var c := h + 2 + |says|;
             && |s| == c + 4 + |b| && Piece(s, 0, a) && Piece(s, |a|, "<a href=\"") && Piece(s, |a| + 9, href)
             && Piece(s, h, "\">") && Piece(s, h + 2, says) && Piece(s, c, "</a>") && Piece(s, c + 4, b)
    ensures var c := |a| + 11 + |href| + |says|;
            && (forall k :: 0 <= k < |s| ==> (s[k] == '<' <==> k == |a| || k == c))
            && s[|a| + 1] == 'a' && s[c + 1] == '/'
  {
    hide Piece;
    var o, m, t := "<a href=\"", "\">", "</a>";
    var h := |a| + 9 + |href|;
    var c := h + 2 + |says|;
    PieceLacks(s, 0, a, '<');
    PieceLacks(s, |a| + 9, href, '<');
    PieceLacks(s, h, m, '<');
    PieceLacks(s, h + 2, says, '<');
    PieceLacks(s, c + 4, b, '<');
    forall k | 0 <= k < 9 ensures s[|a| + k] == o[k] {
      PieceAt(s, |a|, o, k);
    }
    forall k | 0 <= k < 4 ensures s[c + k] == t[k] {
      PieceAt(s, c, t, k);
    }
    assert s[|a| + 0] == o[0] && s[|a| + 1] == o[1] && s[c + 0] == t[0] && s[c + 1] == t[1];
    forall k | 0 <= k < |s| ensures s[k] == '<' <==> k == |a| || k == c {
      if |a| <= k < |a| + 9 {
        assert s[|a| + (k - |a|)] == o[k - |a|];
      } else if c <= k < c + 4 {
        assert s[c + (k - c)] == t[k - c];
      }
    }
  }

  lemma LinkQuotes(s: string, a: string, href: string, says: string, b: string)
    requires Plain(href) && Plain(says) && Plain(b)
    requires var h := |a| + 9 + |href|;
             var c := h + 2 + |says|;
             && |s| == c + 4 + |b| && Piece(s, 0, a) && Piece(s, |a|, "<a href=\"") && Piece(s, |a| + 9, href)
             && Piece(s, h, "\">") && Piece(s, h + 2, says) && Piece(s, c, "</a>") && Piece(s, c + 4, b)
    ensures var h := |a| + 9 + |href|;
            LinkAt(s, |a|, h, h + 2 + |says|)
  {
    var o, m, t := "<a href=\"", "\">", "</a>";
    var h := |a| + 9 + |href|;
    var c := h + 2 + |says|;
    assert s[|a|..|a| + 9] == o && s[c..c + 4] == t;
    PieceAt(s, h, m, 0);
    PieceAt(s, h, m, 1);
    PieceLacks(s, |a| + 9, href, '"');
    PieceLacks(s, h + 2, says, '"');
    PieceLacks(s, c, t, '"');
    PieceLacks(s, c + 4, b, '"');
    PieceLacks(s, |a|, o, '>');
    PieceLacks(s, |a| + 9, href, '>');
    PieceLacks(s, h + 2, says, '<');
    hide Piece;
    assert forall q :: |a| + 9 <= q < |s| && q != h ==> s[q] != '"';
    assert forall q :: |a| < q <= h ==> s[q] != '>';
  }

  // A link says where it leads, after its label if that is something else.
  lemma LinksSpeak(a: string, href: string, says: string, b: string)
    requires '<' !in a && Plain(href) && Plain(says) && Plain(b)
    ensures StripTags(a + LinkTo(href, says) + b) == a + LinkSays(href, Trim(says)) + b
  {
    hide Fails, First, ScriptOrStyle, Link, LineBreak, BlockEnd, Tag, ReplaceRe, LinkTo;
    var s := a + LinkTo(href, says) + b;
    var h := |a| + 9 + |href|;
    var c := h + 2 + |says|;
    LinkPositions(a, href, says, b);
    forall k | 0 <= k < |s| ensures Fails(ScriptOrStyle(), s, k, map[]) {
      ScriptNeedsS(s, k);
    }
    ReplaceNone(ScriptOrStyle(), Drop, s);
    forall k | 0 <= k < |a| || c + 4 <= k < |s| ensures Fails(Link(), s, k, map[]) {
      LinkNeedsA(s, k);
    }
    LinkFirst(s, |a|, h, c);
    var groups: Groups := map[1 := href, 2 := says];
    ReplaceOnce(Link(), LinkText, s, |a|, Hit(c + 4, groups));
    LinkTextIs(href, says, groups);
    TrimmedPlain(says);
    NoTagsLeft(a + LinkSays(href, Trim(says)) + b);
  }

  lemma LinkTextIs(href: string, says: string, groups: Groups)
    requires groups == map[1 := href, 2 := says] && '<' !in says
    ensures LinkText(groups) == LinkSays(href, Trim(says))
  {
    NoTagsLeft(says);
  }

  lemma TrimmedPlain(s: string)
    requires '<' !in s
    ensures '<' !in Trim(s)
  {
    FrontOf(s);
    BackOf(TrimStart(s));
  }

  lemma {:induction false} FrontOf(s: string)
    ensures forall c :: c in TrimStart(s) ==> c in s
  {
    if s != "" && IsSpace(s[0]) {
      FrontOf(s[1..]);
    }
  }

  lemma {:induction false} BackOf(s: string)
    ensures forall c :: c in TrimEnd(s) ==> c in s
  {
    if s != "" && IsSpace(s[|s| - 1]) {
      BackOf(s[..|s| - 1]);
    }
  }
}
