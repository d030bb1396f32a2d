/** Locale prefixes: the three places that decide whether a path has one, and
    the two functions that put it on and take it off. */
module Locale {
  const LOCALES: seq<string> := ["ua", "en"]
  const DEFAULT_LOCALE := "ua"

  predicate IsLocale(value: string) {
    value == "ua" || value == "en"
  }

  predicate StartsWith(s: string, prefix: string) {
    |prefix| <= |s| && s[..|prefix|] == prefix
  }

  // path.split('/') and parts.join('/').
  function Split(s: string): (r: seq<string>)
    ensures r != []
  {
    if s == "" then [""]
    else if s[0] == '/' then [""] + Split(s[1..])
    else [[s[0]] + Split(s[1..])[0]] + Split(s[1..])[1..]
  }

  function Join(parts: seq<string>): string {
    if parts == [] then "" else if |parts| == 1 then parts[0] else parts[0] + "/" + Join(parts[1..])
  }

  function StripLocale(pathname: string): string {
    var parts := Split(pathname);
    if |parts| < 2 || !IsLocale(parts[1]) then pathname
    else
      var remainder := Join(parts[2..]);
      if remainder != "" then "/" + remainder else "/"
  }

  predicate IsLetter(c: char) {
    'a' <= c <= 'z' || 'A' <= c <= 'Z'
  }

  function LetterRun(s: string): (n: nat)
    ensures n <= |s| && (forall i :: 0 <= i < n ==> IsLetter(s[i])) && (n < |s| ==> !IsLetter(s[n]))
  {
    if s != "" && IsLetter(s[0]) then 1 + LetterRun(s[1..]) else 0
  }

  // ^([a-z]+:)?\/\/
  predicate External(to: string) {
    StartsWith(to, "//") || (LetterRun(to) > 0 && StartsWith(to[LetterRun(to)..], "://"))
  }

  // ^\/(ua|en)(\/|$)
  predicate Prefixed(to: string) {
    |to| >= 3 && to[0] == '/' && IsLocale(to[1..3]) && (|to| == 3 || to[3] == '/')
  }

  function WithLocale(to: string, locale: string): string {
    if External(to) || Prefixed(to) then to
    else if to == "/" then "/" + locale
    else "/" + locale + if StartsWith(to, "/") then to else "/" + to
  }

  // The middleware's own test ...
  predicate HasLocale(pathname: string) {
    exists i :: 0 <= i < |LOCALES| && (pathname == "/" + LOCALES[i] || StartsWith(pathname, "/" + LOCALES[i] + "/"))
  }

  // ... and where it sends a path that fails it.
  function RedirectTarget(pathname: string): string {
    "/" + DEFAULT_LOCALE + if pathname == "/" then "" else pathname
  }

  // ---- lemmas ----

  lemma JoinFront(c: char, parts: seq<string>)
    requires parts != []
    ensures Join([""] + parts) == "/" + Join(parts)
    ensures Join([[c] + parts[0]] + parts[1..]) == [c] + Join(parts)
  {
    assert ([""] + parts)[1..] == parts;
    assert "" + "/" + Join(parts) == "/" + Join(parts);
    JoinLonger(c, parts[0], parts[1..]);
    assert parts == [parts[0]] + parts[1..];
  }

  lemma JoinLonger(c: char, first: string, rest: seq<string>)
    ensures Join([[c] + first] + rest) == [c] + Join([first] + rest)
  {
    assert ([[c] + first] + rest)[1..] == rest && ([first] + rest)[1..] == rest;
    if rest != [] {
      assert [c] + first + "/" + Join(rest) == [c] + (first + "/" + Join(rest));
    }
  }

  lemma {:induction false} JoinSplit(s: string)
    ensures Join(Split(s)) == s
  {
    if s != "" {
      hide Join;
      JoinSplit(s[1..]);
      JoinFront(s[0], Split(s[1..]));
      assert s == [s[0]] + s[1..];
    }
  }

  // A segment without slashes in front of a slash is the first part.
  lemma {:induction false} SplitAfter(segment: string, rest: string)
    requires '/' !in segment
    ensures Split(segment + "/" + rest) == [segment] + Split(rest)
  {
    var s := segment + "/" + rest;
    if segment == "" {
      assert s[1..] == rest;
    } else {
      assert s[1..] == segment[1..] + "/" + rest;
      SplitAfter(segment[1..], rest);
      assert [segment[0]] + segment[1..] == segment;
    }
  }

  lemma {:induction false} SplitWhole(segment: string)
    requires '/' !in segment
    ensures Split(segment) == [segment]
  {
    if segment != "" {
      SplitWhole(segment[1..]);
      assert [segment[0]] + segment[1..] == segment;
    }
  }

  lemma LocaleHasNoSlash(l: string)
    requires IsLocale(l)
    ensures '/' !in l
  {
  }

  // What follows a prefix, when there is something.
  lemma StripPrefix(l: string, rest: string)
    requires IsLocale(l)
    ensures StripLocale("/" + l + "/" + rest) == if rest != "" then "/" + rest else "/"
    ensures StripLocale("/" + l) == "/"
  {
    LocaleHasNoSlash(l);
    assert "/" + l + "/" + rest == "" + "/" + (l + "/" + rest);
    SplitAfter("", l + "/" + rest);
    SplitAfter(l, rest);
    var parts := Split("/" + l + "/" + rest);
    assert parts == ["", l] + Split(rest);
    assert parts[2..] == Split(rest);
    JoinSplit(rest);
    assert "/" + l == "" + "/" + l;
    SplitAfter("", l);
    SplitWhole(l);
    assert Split("/" + l) == ["", l];
    assert Split("/" + l)[2..] == [];
  }

  lemma PrefixedForm(p: string)
    requires Prefixed(p)
    ensures IsLocale(p[1..3]) && (p == "/" + p[1..3] || p == "/" + p[1..3] + "/" + p[4..])
  {
  }

  // Reading the second segment, matching the pattern and comparing with each
  // locale in turn come to the same on every path.
  lemma TestsAgree(p: string)
    ensures Prefixed(p) <==> HasLocale(p)
    ensures StartsWith(p, "/") ==> (Prefixed(p) <==> |Split(p)| >= 2 && IsLocale(Split(p)[1]))
  {
    hide Prefixed, HasLocale, Split;
    PatternAgrees(p);
    if StartsWith(p, "/") {
      SecondSegment(p);
    }
  }

  lemma PatternAgrees(p: string)
    ensures Prefixed(p) <==> HasLocale(p)
  {
    assert LOCALES[0] == "ua" && LOCALES[1] == "en";
    if Prefixed(p) {
      PrefixedForm(p);
      var i := if p[1..3] == "ua" then 0 else 1;
      assert p == "/" + LOCALES[i] || StartsWith(p, "/" + LOCALES[i] + "/");
    } else if HasLocale(p) {
      var i :| 0 <= i < |LOCALES| && (p == "/" + LOCALES[i] || StartsWith(p, "/" + LOCALES[i] + "/"));
      HasOneLocale(p, LOCALES[i]);
    }
  }

  lemma HasOneLocale(p: string, l: string)
    requires IsLocale(l) && (p == "/" + l || StartsWith(p, "/" + l + "/"))
    ensures Prefixed(p)
  {
    if p == "/" + l {
      assert p[1..3] == l;
    } else {
      assert p[..4] == "/" + l + "/";
      assert p[1..3] == p[..4][1..3] == l;
      assert p[3] == p[..4][3];
    }
  }

  lemma SecondSegment(p: string)
    requires StartsWith(p, "/")
    ensures Prefixed(p) <==> |Split(p)| >= 2 && IsLocale(Split(p)[1])
  {
    assert Split(p) == [""] + Split(p[1..]);
    var parts := Split(p[1..]);
    if Prefixed(p) {
      PrefixedForm(p);
      var l := p[1..3];
      LocaleHasNoSlash(l);
      if |p| == 3 {
        assert p[1..] == l;
        SplitWhole(l);
      } else {
        assert p[1..] == l + "/" + p[4..];
        SplitAfter(l, p[4..]);
      }
    }
    if IsLocale(parts[0]) {
      JoinSplit(p[1..]);
      if |parts| == 1 {
        assert p[1..] == parts[0];
      } else {
        assert p[1..] == parts[0] + "/" + Join(parts[1..]);
      }
      assert p[1..3] == parts[0] by { assert p[1..3] == p[1..][..2]; }
    }
  }

  lemma ExternalIsNotStripped(p: string)
    requires External(p)
    ensures StripLocale(p) == p
  {
    if StartsWith(p, "//") {
      assert p == "" + "/" + ("" + "/" + p[2..]);
      SplitAfter("", "" + "/" + p[2..]);
      SplitAfter("", p[2..]);
    } else {
      var n := LetterRun(p);
      var scheme := p[..n] + ":";
      assert p[n..][..3] == "://";
      assert p == scheme + "/" + ("/" + p[n + 3..]);
      assert '/' !in scheme;
      SplitAfter(scheme, "/" + p[n + 3..]);
      assert ("/" + p[n + 3..])[1..] == p[n + 3..];
      assert Split(p)[1] == "";
    }
  }

  // Putting a locale on and taking it off again gives the path back exactly
  // when it had none and was either absolute or rooted.
  lemma StripUndoesWith(p: string, l: string)
    requires IsLocale(l)
    ensures StripLocale(WithLocale(p, l)) == p <==> !Prefixed(p) && (External(p) || StartsWith(p, "/"))
  {
    hide StripLocale, Split, Join;
    if External(p) {
      ExternalIsNotStripped(p);
      ExternalIsNotPrefixed(p);
    } else if Prefixed(p) {
      hide External, LetterRun, WithLocale;
      assert WithLocale(p, l) == p by { PrefixedStays(p, l); }
      PrefixedForm(p);
      StripPrefix(p[1..3], if |p| == 3 then "" else p[4..]);
    } else {
      BareForm(p, l);
      hide External, Prefixed, WithLocale, LetterRun;
      StripPrefix(l, if StartsWith(p, "/") then p[1..] else p);
      assert StartsWith(p, "/") ==> p == "/" + p[1..];
    }
  }

  // A path without a locale gets the one that was asked for.
  lemma GetsTheLocale(p: string, l: string)
    requires IsLocale(l) && !External(p) && !Prefixed(p)
    ensures |WithLocale(p, l)| >= 3 && WithLocale(p, l)[1..3] == l && Prefixed(WithLocale(p, l))
    ensures |Split(WithLocale(p, l))| >= 2 && Split(WithLocale(p, l))[1] == l
  {
    hide External, Prefixed, WithLocale, LetterRun, Split;
    BareForm(p, l);
    var rest := if p == "/" then "" else "/" + if StartsWith(p, "/") then p[1..] else p;
    assert WithLocale(p, l) == "/" + l + rest;
    UnderLocale(l, rest);
  }

  lemma UnderLocale(l: string, rest: string)
    requires IsLocale(l) && (rest == "" || rest[0] == '/')
    ensures ("/" + l + rest)[1..3] == l && Prefixed("/" + l + rest)
    ensures |Split("/" + l + rest)| >= 2 && Split("/" + l + rest)[1] == l
  {
    hide Split;
    LocaleHasNoSlash(l);
    assert ("/" + l + rest)[1..3] == l;
    if rest == "" {
      assert "/" + l + rest == "" + "/" + l;
      SplitAfter("", l);
      SplitWhole(l);
    } else {
      assert "/" + l + rest == "" + "/" + (l + "/" + rest[1..]);
      SplitAfter("", l + "/" + rest[1..]);
      SplitAfter(l, rest[1..]);
    }
  }

  lemma ExternalIsNotPrefixed(p: string)
    requires External(p)
    ensures !Prefixed(p)
  {
    if StartsWith(p, "//") {
      assert p[1] == p[..2][1] == '/';
      assert |p| >= 3 ==> p[1..3][0] == '/';
    } else {
      assert IsLetter(p[0]);
    }
  }

  lemma PrefixedStays(p: string, l: string)
    requires Prefixed(p)
    ensures WithLocale(p, l) == p
  {
  }

  lemma BareForm(p: string, l: string)
    requires !External(p) && !Prefixed(p)
    ensures WithLocale(p, l) == if p == "/" then "/" + l else "/" + l + "/" + if StartsWith(p, "/") then p[1..] else p
  {
  }

  // A scheme of n letters, and what follows it.
  predicate SchemeOf(p: string, n: nat) {
    0 < n && n + 3 <= |p| && p[n..n + 3] == "://" && forall i :: 0 <= i < n ==> IsLetter(p[i])
  }

  predicate FirstSegment(p: string, l: string) {
    p == "/" + l || StartsWith(p, "/" + l + "/")
  }

  lemma SchemeIs(p: string)
    ensures (exists n: nat :: SchemeOf(p, n)) <==> LetterRun(p) > 0 && StartsWith(p[LetterRun(p)..], "://")
  {
    var run := LetterRun(p);
    forall n: nat | SchemeOf(p, n) ensures n == run {
      assert p[n] == p[n..n + 3][0] == ':';
    }
    assert run + 3 <= |p| ==> p[run..][..3] == p[run..run + 3];
    assert SchemeOf(p, run) <==> run > 0 && StartsWith(p[run..], "://");
  }

  lemma PrefixedIs(p: string)
    ensures Prefixed(p) <==> FirstSegment(p, "ua") || FirstSegment(p, "en")
  {
    if Prefixed(p) {
      PrefixedForm(p);
    }
    if FirstSegment(p, "ua") {
      HasOneLocale(p, "ua");
    }
    if FirstSegment(p, "en") {
      HasOneLocale(p, "en");
    }
  }

  // Left alone is exactly what leads elsewhere or has a locale already.
  lemma StaysExactlyWhen(p: string, l: string)
    requires IsLocale(l)
    ensures WithLocale(p, l) == p
            <==> || StartsWith(p, "//") || (exists n: nat :: SchemeOf(p, n))
                 || FirstSegment(p, "ua") || FirstSegment(p, "en")
  {
    hide Prefixed, FirstSegment, LetterRun, SchemeOf;
    SchemeIs(p);
    PrefixedIs(p);
    if !External(p) && !Prefixed(p) {
      BareForm(p, l);
      assert |WithLocale(p, l)| > |p|;
    }
  }

  // A second locale never lands on top of the first.
  lemma WithIsIdempotent(p: string, l: string, m: string)
    requires IsLocale(l)
    ensures WithLocale(WithLocale(p, l), m) == WithLocale(p, l)
  {
  }

  // The middleware's redirect lands on a path it lets through, and it is the
  // path that was asked for, under the default locale.
  lemma RedirectsOnce(pathname: string)
    requires StartsWith(pathname, "/") && !HasLocale(pathname)
    ensures HasLocale(RedirectTarget(pathname)) && RedirectTarget(pathname)[..3] == "/ua"
    ensures StripLocale(RedirectTarget(pathname)) == pathname
  {
    var target := RedirectTarget(pathname);
    if pathname == "/" {
      assert target == "/ua";
      StripPrefix("ua", "");
    } else {
      assert pathname == "/" + pathname[1..];
      assert target == "/ua/" + pathname[1..];
      assert "/" + "ua" + "/" == "/ua/";
      StripPrefix("ua", pathname[1..]);
    }
    assert Prefixed(target);
    TestsAgree(target);
  }
}
