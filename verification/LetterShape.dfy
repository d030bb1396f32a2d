/** What a letter's text looks like once it has been tidied, told without the
    steps that tidy it: its words, and what stands between them. */
module LetterShape {
  import opened LetterText

  // ---- the words of a text, and how they are set apart ----

  // What has been passed since the last word: nothing, white space within a
  // line, one line end, or more than one.
  datatype Gap = Nothing | Blank | NewLine | NewParagraph

  function Wider(gap: Gap, c: char): Gap {
    if c == '\n' then (if gap == NewLine || gap == NewParagraph then NewParagraph else NewLine)
    else if gap == Nothing then Blank
    else gap
  }

  function Between(gap: Gap): string {
    match gap
    case Nothing => ""
    case Blank => " "
    case NewLine => "\n"
    case NewParagraph => "\n\n"
  }

  // A reader that has written down `out` and then passed over `gap`.
  datatype Reader = Reader(out: string, gap: Gap)

  function ReadChar(r: Reader, c: char): Reader {
    if IsSpace(c) then r.(gap := Wider(r.gap, c))
    else if r.out == "" then Reader([c], Nothing)
    else Reader(r.out + Between(r.gap) + [c], Nothing)
  }

  function Read(s: string, r: Reader): Reader {
    if s == "" then r else Read(s[1..], ReadChar(r, s[0]))
  }

  const START := Reader("", Nothing)

  // The words of a text in their order: one blank between two on a line, a
  // line end between two lines, an empty line between two paragraphs.
  function Words(s: string): string {
    Read(s, START).out
  }

  // ---- what makes a text neat ----

  predicate PairOk(a: char, b: char) {
    !(a == ' ' && b == ' ') && (a == '\n' ==> b == '\n' || !IsSpace(b)) && (b == '\n' ==> a == '\n' || !IsSpace(a))
  }

  // No tab, no two blanks together, no white space at either end of a line.
  predicate Tight(s: string) {
    '\t' !in s && forall i :: 0 <= i < |s| - 1 ==> PairOk(s[i], s[i + 1])
  }

  predicate NoThreeLineEnds(s: string) {
    forall i :: 0 <= i < |s| - 2 ==> !(s[i] == '\n' && s[i + 1] == '\n' && s[i + 2] == '\n')
  }

  predicate EndsWell(s: string) {
    s != "" ==> !IsSpace(s[0]) && !IsSpace(s[|s| - 1])
  }

  predicate Neat(s: string) {
    Tight(s) && NoThreeLineEnds(s) && EndsWell(s)
  }

  // ---- reading ----

  lemma {:induction false} ReadAcross(a: string, b: string, r: Reader)
    ensures Read(a + b, r) == Read(b, Read(a, r))
  {
    if a == "" {
      assert a + b == b;
    } else {
      assert (a + b)[1..] == a[1..] + b;
      ReadAcross(a[1..], b, ReadChar(r, a[0]));
    }
  }

  // Before the first word nothing passed over matters.
  predicate Alike(a: Reader, b: Reader) {
    a.out == b.out && (a.out != "" ==> a.gap == b.gap)
  }

  lemma {:induction false} ReadAlike(s: string, a: Reader, b: Reader)
    requires Alike(a, b)
    ensures Alike(Read(s, a), Read(s, b))
  {
    if s != "" {
      ReadAlike(s[1..], ReadChar(a, s[0]), ReadChar(b, s[0]));
    }
  }

  predicate AtLineStart(r: Reader) {
    r.out == "" || r.gap == NewLine || r.gap == NewParagraph
  }

  lemma {:induction false} SqueezedReadsSame(s: string, r: Reader)
    ensures Read(SqueezeBlanks(s), r) == Read(s, r)
  {
    if s != "" {
      if s[0] in " \t" {
        SqueezedReadsSame(s[1..], if |s| > 1 && s[1] in " \t" then r else ReadChar(r, ' '));
        if |s| > 1 && s[1] in " \t" {
          assert ReadChar(ReadChar(r, s[0]), s[1]) == ReadChar(r, s[1]);
          assert s[1..][0] == s[1];
          assert "" + SqueezeBlanks(s[1..]) == SqueezeBlanks(s[1..]);
        } else {
          assert ReadChar(r, ' ') == ReadChar(r, s[0]);
          assert (" " + SqueezeBlanks(s[1..]))[1..] == SqueezeBlanks(s[1..]);
        }
      } else {
        SqueezedReadsSame(s[1..], ReadChar(r, s[0]));
        assert ([s[0]] + SqueezeBlanks(s[1..]))[1..] == SqueezeBlanks(s[1..]);
      }
    }
  }

  lemma {:induction false} FrontTrimmedReadsAlike(s: string, r: Reader)
    requires AtLineStart(r) && '\n' !in s
    ensures Alike(Read(TrimStart(s), r), Read(s, r))
  {
    if s != "" && IsSpace(s[0]) {
      var passed := ReadChar(r, s[0]);
      assert AtLineStart(passed) && Alike(r, passed);
      FrontTrimmedReadsAlike(s[1..], passed);
      ReadAlike(TrimStart(s[1..]), r, passed);
    }
  }

  // White space at the end of a line: the line end covers it.
  lemma {:induction false} BackTrimmedReadsSame(s: string, r: Reader)
    ensures Read(TrimEnd(s), r).out == Read(s, r).out
    ensures '\n' !in s ==> ReadChar(Read(TrimEnd(s), r), '\n') == ReadChar(Read(s, r), '\n')
  {
    if s != "" && IsSpace(s[|s| - 1]) {
      var init, last := s[..|s| - 1], s[|s| - 1];
      assert s == init + [last];
      ReadAcross(init, [last], r);
      assert [last][1..] == "";
      BackTrimmedReadsSame(init, r);
    }
  }

  lemma {:induction false} FrontIsPart(s: string)
    ensures exists k :: 0 <= k <= |s| && TrimStart(s) == s[k..]
  {
    if s != "" && IsSpace(s[0]) {
      FrontIsPart(s[1..]);
      var k :| 0 <= k <= |s[1..]| && TrimStart(s[1..]) == s[1..][k..];
      assert TrimStart(s) == s[k + 1..];
    } else {
      assert TrimStart(s) == s[0..];
    }
  }

  lemma {:induction false} BackIsPart(s: string)
    ensures exists k :: 0 <= k <= |s| && TrimEnd(s) == s[..k]
  {
    if s != "" && IsSpace(s[|s| - 1]) {
      BackIsPart(s[..|s| - 1]);
      var k :| 0 <= k <= |s| - 1 && TrimEnd(s[..|s| - 1]) == s[..|s| - 1][..k];
      assert TrimEnd(s) == s[..k];
    } else {
      assert TrimEnd(s) == s[..|s|];
    }
  }

  lemma TrimIsPart(s: string)
    ensures exists j, k :: 0 <= j <= k <= |s| && Trim(s) == s[j..k]
  {
    FrontIsPart(s);
    BackIsPart(TrimStart(s));
    var j :| 0 <= j <= |s| && TrimStart(s) == s[j..];
    var k :| 0 <= k <= |s[j..]| && TrimEnd(s[j..]) == s[j..][..k];
    assert Trim(s) == s[j..j + k];
  }

  lemma {:induction false} FrontTrimmedStartsWell(s: string)
    ensures TrimStart(s) != "" ==> !IsSpace(TrimStart(s)[0])
  {
    if s != "" && IsSpace(s[0]) {
      FrontTrimmedStartsWell(s[1..]);
    }
  }

  lemma {:induction false} BackTrimmedEndsWell(s: string)
    ensures TrimEnd(s) != "" ==> !IsSpace(TrimEnd(s)[|TrimEnd(s)| - 1])
  {
    if s != "" && IsSpace(s[|s| - 1]) {
      BackTrimmedEndsWell(s[..|s| - 1]);
    }
  }

  lemma TrimmedEndsWell(s: string)
    ensures EndsWell(Trim(s))
  {
    FrontTrimmedStartsWell(s);
    BackTrimmedEndsWell(TrimStart(s));
    BackIsPart(TrimStart(s));
  }

  // ---- the lines ----

  lemma {:induction false} LinesAre(s: string)
    ensures Unlines(Lines(s)) == s
    ensures forall k :: 0 <= k < |Lines(s)| ==> '\n' !in Lines(s)[k]
  {
    if s != "" {
      LinesAre(s[1..]);
      var rest := Lines(s[1..]);
      assert s == [s[0]] + s[1..];
      if s[0] == '\n' {
        assert ([""] + rest)[1..] == rest;
      } else {
        assert ([[s[0]] + rest[0]] + rest[1..])[1..] == rest[1..];
        if |rest| > 1 {
          assert [s[0]] + rest[0] + "\n" + Unlines(rest[1..]) == [s[0]] + (rest[0] + "\n" + Unlines(rest[1..]));
        }
      }
    }
  }

  function TidyLine(line: string): string {
    Trim(SqueezeBlanks(line))
  }

  lemma {:induction false} SqueezedHasNoLineEnd(s: string)
    requires '\n' !in s
    ensures '\n' !in SqueezeBlanks(s) && '\t' !in SqueezeBlanks(s)
  {
    if s != "" {
      SqueezedHasNoLineEnd(s[1..]);
    }
  }

  lemma TidyLineReadsAlike(line: string, a: Reader, b: Reader)
    requires '\n' !in line && Alike(a, b) && AtLineStart(a) && AtLineStart(b)
    ensures Read(TidyLine(line), a).out == Read(line, b).out
    ensures Alike(ReadChar(Read(TidyLine(line), a), '\n'), ReadChar(Read(line, b), '\n'))
  {
    var squeezed := SqueezeBlanks(line);
    SqueezedHasNoLineEnd(line);
    SqueezedReadsSame(line, b);
    FrontTrimmedReadsAlike(squeezed, a);
    FrontIsPart(squeezed);
    BackTrimmedReadsSame(TrimStart(squeezed), a);
    ReadAlike(squeezed, a, b);
  }

  lemma {:induction false} TidyLinesReadSame(lines: seq<string>, a: Reader, b: Reader)
    requires forall k :: 0 <= k < |lines| ==> '\n' !in lines[k]
    requires Alike(a, b) && AtLineStart(a) && AtLineStart(b)
    ensures Read(Unlines(TidyLines(lines)), a).out == Read(Unlines(lines), b).out
  {
    if lines != [] {
      var line, rest := lines[0], lines[1..];
      var tidy := TidyLines(rest);
      assert TidyLines(lines) == [TidyLine(line)] + tidy;
      TidyLineReadsAlike(line, a, b);
      if rest == [] {
        assert TidyLines(lines) == [TidyLine(line)];
      } else {
        assert tidy != [];
        assert TidyLines(lines)[1..] == tidy;
        var a', b' := ReadChar(Read(TidyLine(line), a), '\n'), ReadChar(Read(line, b), '\n');
        ReadLine(TidyLine(line), Unlines(tidy), a);
        ReadLine(line, Unlines(rest), b);
        TidyLinesReadSame(rest, a', b');
      }
    }
  }

  lemma ReadLine(line: string, rest: string, r: Reader)
    ensures Read(line + "\n" + rest, r) == Read(rest, ReadChar(Read(line, r), '\n'))
    ensures AtLineStart(ReadChar(Read(line, r), '\n'))
  {
    assert line + "\n" + rest == line + ("\n" + rest);
    ReadAcross(line, "\n" + rest, r);
    assert ("\n" + rest)[1..] == rest;
  }

  lemma ThreeLineEnds(s: string)
    ensures StartsWith(s, "\n\n\n") <==> |s| >= 3 && s[0] == '\n' && s[1] == '\n' && s[2] == '\n'
  {
    if |s| >= 3 {
      assert s[..3] == [s[0], s[1], s[2]];
    }
  }

  lemma ThirdReadsNothing(s: string, r: Reader)
    requires StartsWith(s, "\n\n\n")
    ensures Read(s[1..], r) == Read(s, r)
  {
    ThreeLineEnds(s);
    var r1, r2 := ReadChar(r, '\n'), ReadChar(ReadChar(r, '\n'), '\n');
    assert s[1..][1..] == s[2..] && s[2..][1..] == s[3..];
    assert Read(s, r) == Read(s[1..], r1) == Read(s[2..], r2) == Read(s[3..], ReadChar(r2, '\n'));
    assert Read(s[1..], r) == Read(s[2..], r1) == Read(s[3..], r2);
    assert ReadChar(r2, '\n') == r2;
  }

  lemma {:induction false} SqueezedLinesReadSame(s: string, r: Reader)
    ensures Read(SqueezeLines(s), r) == Read(s, r)
  {
    if s != "" {
      if StartsWith(s, "\n\n\n") {
        SqueezedLinesReadSame(s[1..], r);
        ThirdReadsNothing(s, r);
      } else {
        SqueezedLinesReadSame(s[1..], ReadChar(r, s[0]));
        assert ([s[0]] + SqueezeLines(s[1..]))[1..] == SqueezeLines(s[1..]);
      }
    }
  }

  lemma {:induction false} LeadingSpaceReadsAlike(s: string, r: Reader)
    requires r.out == ""
    ensures Alike(Read(TrimStart(s), r), Read(s, r))
  {
    if s != "" && IsSpace(s[0]) {
      var passed := ReadChar(r, s[0]);
      LeadingSpaceReadsAlike(s[1..], passed);
      ReadAlike(TrimStart(s[1..]), r, passed);
    }
  }

  // Tidying keeps the words and how they are set apart.
  lemma TidyKeepsWords(s: string)
    ensures Words(Tidy(s)) == Words(s)
  {
    LinesAre(s);
    var lines := Unlines(TidyLines(Lines(s)));
    TidyLinesReadSame(Lines(s), START, START);
    SqueezedLinesReadSame(lines, START);
    var squeezed := SqueezeLines(lines);
    LeadingSpaceReadsAlike(squeezed, START);
    BackTrimmedReadsSame(TrimStart(squeezed), START);
  }

  // ---- tidied text is neat ----

  lemma {:induction false} SqueezedIsTight(s: string)
    requires '\n' !in s
    ensures Tight(SqueezeBlanks(s))
    ensures s != "" ==> SqueezeBlanks(s) != "" && SqueezeBlanks(s)[0] == if s[0] in " \t" then ' ' else s[0]
  {
    SqueezedHasNoLineEnd(s);
    if s != "" {
      SqueezedIsTight(s[1..]);
      var rest := SqueezeBlanks(s[1..]);
      if s[0] in " \t" && |s| > 1 && s[1] in " \t" {
        assert SqueezeBlanks(s) == rest;
      } else {
        var head := if s[0] in " \t" then ' ' else s[0];
        assert SqueezeBlanks(s) == [head] + rest;
        PairsInFront(head, rest);
      }
    }
  }

  lemma PairsInFront(c: char, rest: string)
    requires Tight(rest) && c != '\t' && (rest != "" ==> PairOk(c, rest[0]))
    ensures Tight([c] + rest)
  {
    var s := [c] + rest;
    forall i | 0 <= i < |s| - 1 ensures PairOk(s[i], s[i + 1]) {
      if i > 0 {
        assert PairOk(rest[i - 1], rest[i]);
      }
    }
  }

  lemma PartIsTight(s: string, j: nat, k: nat)
    requires j <= k <= |s|
    ensures Tight(s) ==> Tight(s[j..k])
    ensures NoThreeLineEnds(s) ==> NoThreeLineEnds(s[j..k])
    ensures '\n' !in s ==> '\n' !in s[j..k]
  {
  }

  lemma TidyLineIsTight(line: string)
    requires '\n' !in line
    ensures Tight(TidyLine(line)) && EndsWell(TidyLine(line)) && '\n' !in TidyLine(line)
  {
    var squeezed := SqueezeBlanks(line);
    SqueezedIsTight(line);
    SqueezedHasNoLineEnd(line);
    TrimIsPart(squeezed);
    var j, k :| 0 <= j <= k <= |squeezed| && Trim(squeezed) == squeezed[j..k];
    PartIsTight(squeezed, j, k);
    TrimmedEndsWell(squeezed);
  }

  predicate StartsLine(s: string) {
    s != "" ==> s[0] == '\n' || !IsSpace(s[0])
  }

  lemma {:induction false} TidyLinesAreTight(lines: seq<string>)
    requires forall k :: 0 <= k < |lines| ==> '\n' !in lines[k]
    ensures Tight(Unlines(TidyLines(lines))) && StartsLine(Unlines(TidyLines(lines)))
  {
    if lines != [] {
      var line, tidy := TidyLine(lines[0]), TidyLines(lines[1..]);
      TidyLineIsTight(lines[0]);
      TidyLinesAreTight(lines[1..]);
      assert TidyLines(lines) == [line] + tidy && TidyLines(lines)[1..] == tidy;
      if tidy != [] {
        var rest := Unlines(tidy);
        PairsInFront('\n', rest);
        JoinedIsTight(line, "\n" + rest);
        assert line + "\n" + rest == line + ("\n" + rest);
      }
    }
  }

  lemma JoinedIsTight(a: string, b: string)
    requires Tight(a) && EndsWell(a) && Tight(b) && b != "" && b[0] == '\n'
    ensures Tight(a + b) && StartsLine(a + b)
  {
    var s := a + b;
    forall i | 0 <= i < |s| - 1 ensures PairOk(s[i], s[i + 1]) {
      if i + 1 < |a| {
        assert PairOk(a[i], a[i + 1]);
      } else if i >= |a| {
        assert PairOk(b[i - |a|], b[i - |a| + 1]);
      }
    }
  }

  lemma {:induction false} SqueezedLinesAreTight(s: string)
    requires Tight(s)
    ensures Tight(SqueezeLines(s)) && NoThreeLineEnds(SqueezeLines(s))
    ensures s == "" <==> SqueezeLines(s) == ""
    ensures s != "" ==> SqueezeLines(s)[0] == s[0]
    ensures |SqueezeLines(s)| >= 2 && SqueezeLines(s)[..2] == "\n\n" ==> |s| >= 2 && s[..2] == "\n\n"
  {
    if s != "" {
      var rest := SqueezeLines(s[1..]);
      SqueezedLinesAreTight(s[1..]);
      if StartsWith(s, "\n\n\n") {
        assert s[0] == s[..3][0] && s[1] == s[..3][1];
        assert s[..2] == "\n\n";
      } else {
        var r := [s[0]] + rest;
        if rest != "" {
          assert PairOk(s[0], s[1]);
        }
        PairsInFront(s[0], rest);
        if |r| >= 2 && r[..2] == "\n\n" {
          assert r[0] == r[..2][0] && r[1] == r[..2][1];
          assert s[..2] == "\n\n";
        }
        NoThirdLineEnd(s, rest);
      }
    }
  }

  lemma NoThirdLineEnd(s: string, rest: string)
    requires s != "" && !StartsWith(s, "\n\n\n") && NoThreeLineEnds(rest)
    requires |rest| >= 2 && rest[..2] == "\n\n" ==> |s| >= 3 && s[1..][..2] == "\n\n"
    ensures NoThreeLineEnds([s[0]] + rest)
  {
    var r := [s[0]] + rest;
    forall i | 0 <= i < |r| - 2 ensures !(r[i] == '\n' && r[i + 1] == '\n' && r[i + 2] == '\n') {
      if i > 0 {
        assert !(rest[i - 1] == '\n' && rest[i] == '\n' && rest[i + 1] == '\n');
      } else if rest[0] == '\n' && rest[1] == '\n' {
        assert rest[..2] == "\n\n";
        assert s[1] == s[1..][..2][0] && s[2] == s[1..][..2][1];
        ThreeLineEnds(s);
      }
    }
  }

  lemma TidyIsNeat(s: string)
    ensures Neat(Tidy(s))
  {
    LinesAre(s);
    var lines := Unlines(TidyLines(Lines(s)));
    TidyLinesAreTight(Lines(s));
    SqueezedLinesAreTight(lines);
    var squeezed := SqueezeLines(lines);
    TrimIsPart(squeezed);
    var j, k :| 0 <= j <= k <= |squeezed| && Trim(squeezed) == squeezed[j..k];
    PartIsTight(squeezed, j, k);
    TrimmedEndsWell(squeezed);
  }

  // ---- neat text stands ----

  lemma {:induction false} TightStands(s: string)
    requires Tight(s)
    ensures SqueezeBlanks(s) == s
  {
    if s != "" {
      assert s == [s[0]] + s[1..];
      PartIsTight(s, 1, |s|);
      assert s[1..|s|] == s[1..];
      if |s| > 1 {
        assert PairOk(s[0], s[1]);
      }
      TightStands(s[1..]);
    }
  }

  lemma EndsWellStands(s: string)
    requires EndsWell(s)
    ensures Trim(s) == s
  {
  }

  lemma AfterTheFirst(s: string)
    requires s != "" && NoThreeLineEnds(s)
    ensures !StartsWith(s, "\n\n\n") && NoThreeLineEnds(s[1..])
  {
    ThreeLineEnds(s);
  }

  lemma {:induction false} NeatLinesStand(s: string)
    requires NoThreeLineEnds(s)
    ensures SqueezeLines(s) == s
  {
    hide NoThreeLineEnds, StartsWith;
    if s != "" {
      AfterTheFirst(s);
      NeatLinesStand(s[1..]);
      assert s == [s[0]] + s[1..];
    }
  }

  // Each line of a tight text is tight and has no white space at its ends.
  lemma {:induction false} LinesAreNeat(s: string)
    requires Tight(s) && (s != "" ==> !IsSpace(s[|s| - 1]))
    ensures forall k :: 0 <= k < |Lines(s)| ==> Tight(Lines(s)[k])
    ensures forall k :: 1 <= k < |Lines(s)| ==> EndsWell(Lines(s)[k])
    ensures Lines(s)[0] != "" ==> s != "" && Lines(s)[0][0] == s[0] && !IsSpace(Lines(s)[0][|Lines(s)[0]| - 1])
    ensures Lines(s)[0] == "" ==> s == "" || s[0] == '\n'
  {
    if s != "" {
      PartIsTight(s, 1, |s|);
      assert s[1..|s|] == s[1..];
      LinesAreNeat(s[1..]);
      var rest := Lines(s[1..]);
      if |s| > 1 {
        assert PairOk(s[0], s[1]);
      }
      if s[0] == '\n' {
        assert Lines(s) == [""] + rest;
      } else {
        assert Lines(s) == [[s[0]] + rest[0]] + rest[1..];
        PairsInFront(s[0], rest[0]);
      }
    }
  }

  lemma {:induction false} TidyLinesStand(lines: seq<string>)
    requires forall k :: 0 <= k < |lines| ==> Tight(lines[k]) && EndsWell(lines[k])
    ensures TidyLines(lines) == lines
  {
    if lines != [] {
      TightStands(lines[0]);
      EndsWellStands(lines[0]);
      TidyLinesStand(lines[1..]);
      assert lines == [lines[0]] + lines[1..];
    }
  }

  lemma NeatTextStands(s: string)
    requires Neat(s)
    ensures Tidy(s) == s
  {
    LinesAre(s);
    LinesAreNeat(s);
    TidyLinesStand(Lines(s));
    NeatLinesStand(s);
    EndsWellStands(s);
  }

  // ---- where words are set apart by blanks and line ends alone ----

  predicate PlainSpaces(s: string) {
    forall i :: 0 <= i < |s| && IsSpace(s[i]) ==> s[i] in " \t\n"
  }

  // A neat text with no other white space is exactly its words.
  lemma {:induction false} NeatIsItsWords(s: string, n: nat)
    requires Neat(s) && PlainSpaces(s) && n <= |s|
    ensures var r := Read(s[..n], START);
            r.out + Between(r.gap) == s[..n] && (n > 0 ==> r.out != "")
    ensures var r := Read(s[..n], START);
            n > 0 ==> (if !IsSpace(s[n - 1]) then r.gap == Nothing
                       else if s[n - 1] == ' ' then r.gap == Blank
                       else if n > 1 && s[n - 2] == '\n' then r.gap == NewParagraph
                       else r.gap == NewLine)
  {
    if n > 0 {
      NeatIsItsWords(s, n - 1);
      assert s[..n] == s[..n - 1] + [s[n - 1]];
      ReadAcross(s[..n - 1], [s[n - 1]], START);
      assert [s[n - 1]][1..] == "";
      if n > 1 {
        assert PairOk(s[n - 2], s[n - 1]);
      }
      if n > 2 {
        assert PairOk(s[n - 3], s[n - 2]);
        assert !(s[n - 3] == '\n' && s[n - 2] == '\n' && s[n - 1] == '\n');
      }
    }
  }

  // ---- the letters ----

  // The text of a letter is neat, whatever its markup.
  lemma TextIsNeat(html: string)
    ensures Neat(HtmlToText(html))
  {
    TidyIsNeat(DecodeEntities(StripTags(html)));
  }

  // What a customer typed, escaped into a letter and read back as text: the
  // same words, on the same lines, in the same paragraphs, neatly set.
  lemma ReadsBackAsTyped(s: string)
    ensures Neat(HtmlToText(EscapeHtml(s))) && Words(HtmlToText(EscapeHtml(s))) == Words(s)
  {
    EscapedTextReadsBack(s);
    TidyIsNeat(s);
    TidyKeepsWords(s);
  }

  // Typed neatly, it comes back to the letter.
  lemma NeatReadsBack(s: string)
    requires Neat(s)
    ensures HtmlToText(EscapeHtml(s)) == s
  {
    EscapedTextReadsBack(s);
    NeatTextStands(s);
  }

  function Visible(s: string): string {
    if s == "" then "" else (if IsSpace(s[0]) then "" else [s[0]]) + Visible(s[1..])
  }

  lemma {:induction false} VisibleAcross(a: string, b: string)
    ensures Visible(a + b) == Visible(a) + Visible(b)
  {
    if a == "" {
      assert a + b == b;
    } else {
      assert (a + b)[1..] == a[1..] + b;
      VisibleAcross(a[1..], b);
    }
  }

  lemma {:induction false} WordsAreVisible(s: string, r: Reader)
    ensures Visible(Read(s, r).out) == Visible(r.out) + Visible(s)
  {
    if s != "" {
      var next := ReadChar(r, s[0]);
      WordsAreVisible(s[1..], next);
      if !IsSpace(s[0]) {
        assert [s[0]][1..] == "";
        GapsAreInvisible(r.gap);
        VisibleAcross(r.out + Between(r.gap), [s[0]]);
        VisibleAcross(r.out, Between(r.gap));
      }
    }
  }

  lemma GapsAreInvisible(gap: Gap)
    ensures Visible(Between(gap)) == ""
  {
    assert "\n\n"[1..] == "\n" && "\n"[1..] == "" && " "[1..] == "";
  }

  lemma SameVisible(s: string)
    ensures Visible(Words(s)) == Visible(s)
  {
    WordsAreVisible(s, START);
    assert Visible("") == "";
  }

  // Not a character anybody can see is lost, added or moved.
  lemma VisibleReadsBack(s: string)
    ensures Visible(HtmlToText(EscapeHtml(s))) == Visible(s)
  {
    hide HtmlToText, EscapeHtml, Neat, Words, Visible;
    ReadsBackAsTyped(s);
    SameVisible(s);
    SameVisible(HtmlToText(EscapeHtml(s)));
  }

  // ---- exactly, for blanks, tabs and line ends ----

  lemma {:induction false} SqueezedIsPlain(s: string)
    requires PlainSpaces(s)
    ensures PlainSpaces(SqueezeBlanks(s)) && PlainSpaces(SqueezeLines(s))
  {
    if s != "" {
      assert PlainSpaces(s[1..]);
      SqueezedIsPlain(s[1..]);
    }
  }

  lemma TrimmedIsPlain(s: string)
    requires PlainSpaces(s)
    ensures PlainSpaces(Trim(s))
  {
    TrimIsPart(s);
  }

  lemma {:induction false} JoinedArePlain(lines: seq<string>)
    ensures (forall k :: 0 <= k < |lines| ==> PlainSpaces(lines[k])) <==> PlainSpaces(Unlines(lines))
  {
    if |lines| > 1 {
      JoinedArePlain(lines[1..]);
      var rest := Unlines(lines[1..]);
      var all := lines[0] + "\n" + rest;
      if PlainSpaces(all) {
        forall i | 0 <= i < |lines[0]| && IsSpace(lines[0][i]) ensures lines[0][i] in " \t\n" {
          assert all[i] == lines[0][i];
        }
        forall i | 0 <= i < |rest| && IsSpace(rest[i]) ensures rest[i] in " \t\n" {
          assert all[|lines[0]| + 1 + i] == rest[i];
        }
        assert forall k :: 1 <= k < |lines| ==> lines[k] == lines[1..][k - 1];
      }
    }
  }

  lemma {:induction false} TidyLinesArePlain(lines: seq<string>)
    requires forall k :: 0 <= k < |lines| ==> PlainSpaces(lines[k])
    ensures forall k :: 0 <= k < |TidyLines(lines)| ==> PlainSpaces(TidyLines(lines)[k])
  {
    if lines != [] {
      SqueezedIsPlain(lines[0]);
      TrimmedIsPlain(SqueezeBlanks(lines[0]));
      TidyLinesArePlain(lines[1..]);
    }
  }

  lemma TidyIsPlain(s: string)
    requires PlainSpaces(s)
    ensures PlainSpaces(Tidy(s))
  {
    LinesAre(s);
    JoinedArePlain(Lines(s));
    TidyLinesArePlain(Lines(s));
    JoinedArePlain(TidyLines(Lines(s)));
    SqueezedIsPlain(Unlines(TidyLines(Lines(s))));
    TrimmedIsPlain(SqueezeLines(Unlines(TidyLines(Lines(s)))));
  }

  // Typed with blanks, tabs and line ends for white space, a text comes back
  // as exactly its words, set apart as they were.
  lemma PlainReadsBack(s: string)
    requires PlainSpaces(s)
    ensures HtmlToText(EscapeHtml(s)) == Words(s)
  {
    hide HtmlToText, EscapeHtml, Tidy;
    EscapedTextReadsBack(s);
    TidyIsPlain(s);
    TidyIsNeat(s);
    TidyKeepsWords(s);
    var r := Tidy(s);
    NeatIsItsWords(r, |r|);
    assert r[..|r|] == r;
    assert r != "" ==> !IsSpace(r[|r| - 1]);
  }
}
